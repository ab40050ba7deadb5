/** The game path cache of lutris/scanners/lutris.py: the rule that picks a
    game's entry-point path from its configuration, the map of all installed
    games' paths, and the JSON file that stores that map with its read,
    rebuild, insert and delete operations.

    The file is a value of `CacheFile`: absent, present but not decodable as
    JSON, or a decoded object. The library's games are an input sequence. */
module PathCache {
  import opened PyValues
  import opened Paths

  /** Game ids are the keys of the cache file, which JSON makes strings. */
  type GameId = string

  /** A game of the library, as far as the path cache reads it: `config` is
      the game section of its configuration (`game.config.game_config`), None
      when the game has no configuration. */
  datatype Game = Game(id: GameId, runnerName: string, directory: Option<string>,
                       config: Option<map<string, Value>>)

  // ---------------------------------------------------------------------
  // Path derivation (get_path_from_config)
  // ---------------------------------------------------------------------

  /** The configuration keys probed, in priority order. */
  const PathKeys: seq<string> := ["exe", "main_file", "iso", "rom", "disk-a", "path", "files"]

  /** `v[0]`, as Python evaluates it for a string or a list. */
  function FirstItem(v: Value): (r: Result<Value>)
    ensures v.List? && v.items != [] ==> r == Ok(v.items[0])
    ensures v.Str? && v.s != "" ==> r == Ok(Str([v.s[0]]))
    ensures (v.List? && v.items == []) || (v.Str? && v.s == "") ==> r == Err(IndexError)
    ensures !v.List? && !v.Str? ==> r == Err(TypeError)
  {
    match v
    case Str(s) => if s == "" then Err(IndexError) else Ok(Str([s[0]]))
    case List(items) => if items == [] then Err(IndexError) else Ok(items[0])
    case _ => Err(TypeError)
  }

  /** `"." in v`, as Python evaluates it for a string or a list. */
  function HasDot(v: Value): Result<bool> {
    match v
    case Str(s) => Ok('.' in s)
    case List(items) => Ok(Str(".") in items)
    case _ => Err(TypeError)
  }

  /** The value read for `key`: None when the key is absent; for `files`,
      its first item. */
  function KeyValue(cfg: map<string, Value>, key: string): Option<Result<Value>> {
    if key !in cfg then None
    else if key == "files" then Some(FirstItem(cfg[key]))
    else Some(Ok(cfg[key]))
  }

  /** A string value made into a path: `~` expanded, and a path that is not
      absolute joined to the game's directory (a missing directory raises). */
  function EntryPath(s: string, directory: Option<string>, dirs: UserDirs): (r: Result<string>)
    requires s != ""
    ensures r.Ok? ==> r.value != ""
  {
    var p := ExpandUser(s, dirs);
    assert p != "";
    if StartsWith(p, "/") then Ok(p)
    else if directory.None? then Err(TypeError)
    else Ok(Join(directory.value, p))
  }

  /** What probing `key` gives: None when the key is skipped (absent, or its
      value is empty), else the path or the exception. */
  function Probe(cfg: map<string, Value>, key: string, directory: Option<string>,
                 dirs: UserDirs): (r: Option<Result<string>>)
    ensures r.Some? && r.value.Ok? ==> r.value.value != ""
    ensures r.None? <==>
              || key !in cfg
              || (key != "files" && !Truthy(cfg[key]))
              || (key == "files" && FirstItem(cfg[key]).Ok? && !Truthy(FirstItem(cfg[key]).value))
    ensures key in cfg && key != "files" && cfg[key].Str? && cfg[key].s != "" ==>
              r == Some(EntryPath(cfg[key].s, directory, dirs))
    ensures key in cfg && key == "files" && FirstItem(cfg[key]).Err? ==>
              r == Some(Err(FirstItem(cfg[key]).error))
    ensures key in cfg && key == "files" && FirstItem(cfg[key]).Ok? &&
            FirstItem(cfg[key]).value.Str? && FirstItem(cfg[key]).value.s != "" ==>
              r == Some(EntryPath(FirstItem(cfg[key]).value.s, directory, dirs))
    ensures key in cfg && key != "files" && Truthy(cfg[key]) && !cfg[key].Str? ==>
              r == Some(Err(TypeError))
    ensures key in cfg && key == "files" && FirstItem(cfg[key]).Ok? &&
            Truthy(FirstItem(cfg[key]).value) && !FirstItem(cfg[key]).value.Str? ==>
              r == Some(Err(TypeError))
  {
    match KeyValue(cfg, key)
    case None => None
    case Some(Err(e)) => Some(Err(e))
    case Some(Ok(v)) =>
      if !Truthy(v) then None
      else if !v.Str? then Some(Err(TypeError))  // os.path.expanduser of a non-string
      else Some(EntryPath(v.s, directory, dirs))
  }

  /** Key `i` decides the probe loop with `result`: every earlier key is
      skipped and key `i` gives `result`. */
  predicate DecidedBy(cfg: map<string, Value>, keys: seq<string>, i: int, directory: Option<string>,
                      dirs: UserDirs, result: Result<string>)
  {
    && 0 <= i < |keys|
    && (forall j | 0 <= j < i :: Probe(cfg, keys[j], directory, dirs).None?)
    && Probe(cfg, keys[i], directory, dirs) == Some(result)
  }

  /** The loop over the probed keys: the first key that is not skipped
      decides; "" when every key is skipped. */
  function ProbeKeys(cfg: map<string, Value>, keys: seq<string>, directory: Option<string>,
                     dirs: UserDirs): Result<string>
  {
    if keys == [] then Ok("")
    else
      match Probe(cfg, keys[0], directory, dirs)
      case Some(result) => result
      case None => ProbeKeys(cfg, keys[1..], directory, dirs)
  }

  /** The probe loop gives "" exactly when every key is skipped, and
      otherwise the result of the first key that is not. */
  lemma {:induction false} ProbeKeysFirstSet(cfg: map<string, Value>, keys: seq<string>,
                                              directory: Option<string>, dirs: UserDirs)
    ensures var r := ProbeKeys(cfg, keys, directory, dirs);
      r == Ok("") <==> forall i | 0 <= i < |keys| :: Probe(cfg, keys[i], directory, dirs).None?
    ensures var r := ProbeKeys(cfg, keys, directory, dirs);
      r != Ok("") ==> exists i :: DecidedBy(cfg, keys, i, directory, dirs, r)
  {
    if keys != [] {
      var r := ProbeKeys(cfg, keys, directory, dirs);
      match Probe(cfg, keys[0], directory, dirs)
      case Some(result) =>
        assert Probe(cfg, keys[0], directory, dirs).Some?;
        assert DecidedBy(cfg, keys, 0, directory, dirs, result);
      case None =>
        ProbeKeysFirstSet(cfg, keys[1..], directory, dirs);
        assert forall i | 1 <= i < |keys| :: keys[i] == keys[1..][i - 1];
        if r != Ok("") {
          var i :| DecidedBy(cfg, keys[1..], i, directory, dirs, r);
          assert DecidedBy(cfg, keys, i + 1, directory, dirs, r);
        }
    }
  }

  /** get_path_from_config: the main entry point of a game. "" for a game
      without configuration, and for a `mame` game whose main_file has no
      dot (a ROM named by its id); otherwise the first of exe, main_file, iso,
      rom, disk-a, path, files[0] that is set and non-empty, made absolute
      against the game's directory; "" when none is. */
  function PathFromConfig(game: Game, dirs: UserDirs): (r: Result<string>)
    ensures game.config.None? ==> r == Ok("")
    ensures (game.config.Some? && game.runnerName == "mame" && "main_file" in game.config.value &&
             HasDot(game.config.value["main_file"]) == Ok(false)) ==> r == Ok("")
    ensures game.config.Some? &&
            (game.runnerName != "mame" || "main_file" !in game.config.value ||
             HasDot(game.config.value["main_file"]) == Ok(true)) ==>
              r == ProbeKeys(game.config.value, PathKeys, game.directory, dirs)
    ensures (game.config.Some? && game.runnerName == "mame" && "main_file" in game.config.value &&
             HasDot(game.config.value["main_file"]).Err?) ==>
              r == Err(HasDot(game.config.value["main_file"]).error)
  {
    if game.config.None? then Ok("")
    else
      var cfg := game.config.value;
      if game.runnerName == "mame" && "main_file" in cfg && HasDot(cfg["main_file"]) != Ok(true) then
        match HasDot(cfg["main_file"])
        case Err(e) => Err(e)
        case Ok(_) => Ok("")
      else ProbeKeys(cfg, PathKeys, game.directory, dirs)
  }

  /** A non-empty path comes from the first probed key that is set, and a
      derived path is never empty. */
  lemma PathFromFirstSetKey(game: Game, dirs: UserDirs)
    requires PathFromConfig(game, dirs).Ok? && PathFromConfig(game, dirs).value != ""
    ensures game.config.Some?
    ensures exists i :: DecidedBy(game.config.value, PathKeys, i, game.directory, dirs, PathFromConfig(game, dirs))
  {
    ProbeKeysFirstSet(game.config.value, PathKeys, game.directory, dirs);
  }

  /** The first probed key that is set decides the path: a later key is
      never consulted when an earlier one gives a path. */
  lemma ExeBeforeOtherKeys(game: Game, dirs: UserDirs, exe: string)
    requires game.config.Some? && game.runnerName != "mame"
    requires "exe" in game.config.value && game.config.value["exe"] == Str(exe) && exe != ""
    ensures PathFromConfig(game, dirs) == EntryPath(exe, game.directory, dirs)
  {
  }

  /** A relative entry point is resolved against the game's directory, an
      absolute one is kept as it is. */
  lemma {:induction false} RelativePathJoinedToDirectory(s: string, directory: string, dirs: UserDirs)
    requires s != "" && !StartsWith(s, "~")
    ensures StartsWith(s, "/") ==> EntryPath(s, Some(directory), dirs) == Ok(s)
    ensures !StartsWith(s, "/") ==> EntryPath(s, Some(directory), dirs) == Ok(Join(directory, s)) &&
                                    EndsWith(Join(directory, s), s)
  {
  }

  // ---------------------------------------------------------------------
  // The paths of all installed games (get_game_paths)
  // ---------------------------------------------------------------------

  /** Runners whose games have no path on disk. */
  predicate RemoteRunner(runnerName: string) {
    runnerName in {"steam", "web"}
  }

  /** The game gets an entry in the cache. */
  predicate IsCached(game: Game, dirs: UserDirs) {
    !RemoteRunner(game.runnerName) && PathFromConfig(game, dirs).Ok? && PathFromConfig(game, dirs).value != ""
  }

  /** The game gets an entry in the cache, with this path. */
  predicate CachedWith(game: Game, dirs: UserDirs, path: string) {
    IsCached(game, dirs) && PathFromConfig(game, dirs).value == path
  }

  /** One iteration of get_game_paths' loop: `game` added to the paths found
      so far. */
  function AddGame(m: map<GameId, string>, game: Game, dirs: UserDirs): (r: Result<map<GameId, string>>)
    ensures r.Ok? ==> forall id :: id in r.value <==>
                        id in m || (game.id == id && IsCached(game, dirs))
    ensures r.Ok? ==> forall id | id in m && id != game.id :: r.value[id] == m[id]
    ensures r.Ok? && IsCached(game, dirs) ==> CachedWith(game, dirs, r.value[game.id])
    ensures r.Ok? && !IsCached(game, dirs) ==> r.value == m
    ensures r.Err? <==> !RemoteRunner(game.runnerName) && PathFromConfig(game, dirs).Err?
  {
    if RemoteRunner(game.runnerName) then Ok(m)
    else
      match PathFromConfig(game, dirs)
      case Err(e) => Err(e)
      case Ok(path) => if path == "" then Ok(m) else Ok(m[game.id := path])
  }

  /** The loop of get_game_paths over the installed games, as a function. */
  function GamePaths(games: seq<Game>, dirs: UserDirs): Result<map<GameId, string>>
  {
    if games == [] then Ok(map[])
    else
      match GamePaths(games[..|games| - 1], dirs)
      case Err(e) => Err(e)
      case Ok(m) => AddGame(m, games[|games| - 1], dirs)
  }

  /** Adding a game keeps every entry, and adds one for a cached game. */
  lemma AddGameGrows(m: map<GameId, string>, game: Game, dirs: UserDirs)
    requires AddGame(m, game, dirs).Ok?
    ensures forall id | id in m :: id in AddGame(m, game, dirs).value
    ensures IsCached(game, dirs) ==> game.id in AddGame(m, game, dirs).value
  {
  }

  /** Game i of the list gets an entry in the cache. */
  predicate Cached(games: seq<Game>, dirs: UserDirs, i: int) {
    0 <= i < |games| && IsCached(games[i], dirs)
  }

  /** Every game that is not run by steam or web and whose derived path is
      not empty has an entry in the cache. */
  lemma GamePathsKeys(games: seq<Game>, dirs: UserDirs)
    requires GamePaths(games, dirs).Ok?
    ensures forall i | Cached(games, dirs, i) :: games[i].id in GamePaths(games, dirs).value
  {
    forall i | Cached(games, dirs, i) ensures games[i].id in GamePaths(games, dirs).value {
      GamePathsKey(games, dirs, i);
    }
  }

  /** The last game of the list only adds to what the others gave. */
  lemma GamePathsStep(games: seq<Game>, dirs: UserDirs)
    requires GamePaths(games, dirs).Ok? && games != []
    ensures GamePaths(games[..|games| - 1], dirs).Ok?
    ensures forall id | id in GamePaths(games[..|games| - 1], dirs).value ::
              id in GamePaths(games, dirs).value
    ensures IsCached(games[|games| - 1], dirs) ==> games[|games| - 1].id in GamePaths(games, dirs).value
  {
    var n := |games| - 1;
    AddGameGrows(GamePaths(games[..n], dirs).value, games[n], dirs);
  }

  lemma {:induction false} GamePathsKey(games: seq<Game>, dirs: UserDirs, i: int)
    requires GamePaths(games, dirs).Ok? && Cached(games, dirs, i)
    ensures games[i].id in GamePaths(games, dirs).value
  {
    var n := |games| - 1;
    var prefix := games[..n];
    GamePathsStep(games, dirs);
    if i != n {
      assert Cached(prefix, dirs, i) by { assert prefix[i] == games[i]; }
      GamePathsKey(prefix, dirs, i);
    }
  }

  /** Every entry of the cache is the non-empty path derived from the
      configuration of a game with that id that is not run by steam or web. */
  lemma {:induction false} GamePathsValues(games: seq<Game>, dirs: UserDirs)
    requires GamePaths(games, dirs).Ok?
    ensures var m := GamePaths(games, dirs).value;
      forall id | id in m :: exists i | 0 <= i < |games| :: games[i].id == id && CachedWith(games[i], dirs, m[id])
  {
    if games != [] {
      var n := |games| - 1;
      var prefix := games[..n];
      GamePathsValues(prefix, dirs);
      var m := GamePaths(games, dirs).value;
      var m0 := GamePaths(prefix, dirs).value;
      forall id | id in m
        ensures exists i | 0 <= i < |games| :: games[i].id == id && CachedWith(games[i], dirs, m[id])
      {
        if !CachedWith(games[n], dirs, m[id]) || games[n].id != id {
          assert id in m0 && m[id] == m0[id];
          var i :| 0 <= i < n && prefix[i].id == id && CachedWith(prefix[i], dirs, m0[id]);
          assert games[i] == prefix[i];
        }
      }
    }
  }

  /** get_game_paths: the loop over the installed games. */
  method GetGamePaths(games: seq<Game>, dirs: UserDirs) returns (r: Result<map<GameId, string>>)
    ensures r == GamePaths(games, dirs)
  {
    var gamePaths: map<GameId, string> := map[];
    for i := 0 to |games|
      invariant GamePaths(games[..i], dirs) == Ok(gamePaths)
    {
      assert games[..i + 1][..i] == games[..i];
      var game := games[i];
      if RemoteRunner(game.runnerName) {
        continue;
      }
      var path := PathFromConfig(game, dirs);
      if path.Err? {
        GamePathsErrSticks(games, i + 1, dirs);
        assert games[..|games|] == games;
        return Err(path.error);
      }
      if path.value == "" {
        continue;
      }
      gamePaths := gamePaths[game.id := path.value];
    }
    assert games[..|games|] == games;
    r := Ok(gamePaths);
  }

  /** Once a game's path derivation raised, the whole derivation has failed. */
  lemma {:induction false} GamePathsErrSticks(games: seq<Game>, k: nat, dirs: UserDirs)
    requires k <= |games| && GamePaths(games[..k], dirs).Err?
    ensures GamePaths(games, dirs) == GamePaths(games[..k], dirs)
    decreases |games| - k
  {
    if k < |games| {
      assert games[..k + 1][..k] == games[..k];
      GamePathsErrSticks(games, k + 1, dirs);
    } else {
      assert games[..k] == games;
    }
  }

  // ---------------------------------------------------------------------
  // The cache file
  // ---------------------------------------------------------------------

  /** The cache file on disk: absent, not decodable as JSON (for instance
      empty), or a JSON object from game ids to paths. */
  datatype CacheFile = Absent | Undecodable | Json(paths: map<GameId, string>)

  /** read_path_cache: a decode error reads as an empty map, but a missing
      file is not caught and raises. */
  function ReadPathCache(file: CacheFile): (r: Result<map<GameId, string>>)
    ensures file.Absent? <==> r == Err(FileNotFound)
    ensures file.Undecodable? ==> r == Ok(map[])
    ensures file.Json? ==> r == Ok(file.paths)
  {
    match file
    case Absent => Err(FileNotFound)
    case Undecodable => Ok(map[])
    case Json(paths) => Ok(paths)
  }

  /** The cache file and the in-process copy of it that get_path_cache keeps
      (`@cache_single`), which every write clears. */
  class PathCacheStore {
    var file: CacheFile
    var snapshot: Option<map<GameId, string>>

    constructor (file: CacheFile)
      ensures this.file == file && snapshot == None
    {
      this.file := file;
      snapshot := None;
    }

    /** read_path_cache */
    function Read(): (r: Result<map<GameId, string>>)
      reads this
    {
      ReadPathCache(file)
    }

    /** get_path_cache: the first successful read is kept and returned until
        a write clears it; a read that raises is not kept. */
    method GetPathCache() returns (r: Result<map<GameId, string>>)
      modifies this`snapshot
      ensures old(snapshot).Some? ==> r == Ok(old(snapshot).value) && snapshot == old(snapshot)
      ensures old(snapshot).None? ==> r == Read() && snapshot == (if r.Ok? then Some(r.value) else None)
    {
      if snapshot.Some? {
        return Ok(snapshot.value);
      }
      r := ReadPathCache(file);
      if r.Ok? {
        snapshot := Some(r.value);
      }
    }

    /** build_path_cache: nothing happens when the file exists and `recreate`
        is false. Otherwise the file is truncated, then written with the paths
        of all installed games; if deriving them raises, the file stays empty
        and the kept copy is not cleared. */
    method BuildPathCache(recreate: bool, games: seq<Game>, dirs: UserDirs) returns (r: Result<()>)
      modifies this
      ensures old(file) != Absent && !recreate ==>
                r == Ok(()) && file == old(file) && snapshot == old(snapshot)
      ensures old(file) == Absent || recreate ==>
                match GamePaths(games, dirs)
                case Ok(paths) => r == Ok(()) && file == Json(paths) && snapshot == None
                case Err(e) => r == Err(e) && file == Undecodable && snapshot == old(snapshot)
    {
      if file != Absent && !recreate {
        return Ok(());
      }
      file := Undecodable;  // open(..., "w") truncates the file
      var gamePaths := GetGamePaths(games, dirs);
      if gamePaths.Err? {
        return Err(gamePaths.error);
      }
      file := Json(gamePaths.value);
      snapshot := None;
      r := Ok(());
    }

    /** add_to_path_cache: a game whose derived path is empty leaves the file
        alone; otherwise only its entry is set (read, update, rewrite). */
    method AddToPathCache(game: Game, dirs: UserDirs) returns (r: Result<()>)
      modifies this
      ensures match PathFromConfig(game, dirs)
        case Err(e) => r == Err(e) && file == old(file) && snapshot == old(snapshot)
        case Ok(path) =>
          if path == "" then r == Ok(()) && file == old(file) && snapshot == old(snapshot)
          else match ReadPathCache(old(file))
            case Err(e) => r == Err(e) && file == old(file) && snapshot == old(snapshot)
            case Ok(current) => r == Ok(()) && file == Json(current[game.id := path]) && snapshot == None
      ensures r.Ok? && PathFromConfig(game, dirs).value != "" ==>
                Read().Ok? && game.id in Read().value &&
                Read().value[game.id] == PathFromConfig(game, dirs).value &&
                forall id | id != game.id :: (id in Read().value <==> id in old(Read()).value) &&
                                             (id in Read().value ==> Read().value[id] == old(Read()).value[id])
    {
      var path := PathFromConfig(game, dirs);
      if path.Err? {
        return Err(path.error);
      }
      if path.value == "" {
        return Ok(());
      }
      var currentCache := ReadPathCache(file);
      if currentCache.Err? {
        return Err(currentCache.error);
      }
      file := Json(currentCache.value[game.id := path.value]);
      snapshot := None;
      r := Ok(());
    }

    /** remove_from_path_cache: an id that is not in the file writes nothing;
        otherwise only that key is deleted (read, delete, rewrite). */
    method RemoveFromPathCache(game: Game) returns (r: Result<()>)
      modifies this
      ensures match ReadPathCache(old(file))
        case Err(e) => r == Err(e) && file == old(file) && snapshot == old(snapshot)
        case Ok(current) =>
          if game.id !in current then r == Ok(()) && file == old(file) && snapshot == old(snapshot)
          else r == Ok(()) && file == Json(current - {game.id}) && snapshot == None
      ensures r.Ok? ==> Read().Ok? && game.id !in Read().value &&
                        Read().value == old(Read()).value - {game.id}
    {
      var currentCache := ReadPathCache(file);
      if currentCache.Err? {
        return Err(currentCache.error);
      }
      if game.id !in currentCache.value {
        return Ok(());
      }
      file := Json(currentCache.value - {game.id});
      snapshot := None;
      r := Ok(());
    }
  }
}
