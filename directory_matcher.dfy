/** Matching on-disk folders against catalog entries and their installer
    scripts (the first half of lutris/scanners/lutris.py).

    `slugify` and the directory listing come from outside: slugify is a
    parameter, the listing is the sequence `os.listdir` returned, and the file
    system answers `os.path.isdir` and `os.path.exists`. */
module DirectoryMatcher {
  import opened PyValues
  import opened Paths

  // ---------------------------------------------------------------------
  // Folder name -> slug map (get_game_slugs_and_folders)
  // ---------------------------------------------------------------------

  /** Entry i of the listing is a directory whose slug is k. */
  predicate Listed(dirname: string, folders: seq<string>, fs: FileSystem,
                   slugify: string -> string, i: int, k: string)
  {
    0 <= i < |folders| && fs.IsDir(Join(dirname, folders[i])) && slugify(folders[i]) == k
  }

  /** The slug map of a listing: each directory entry is stored under its
      slug, a later entry replacing an earlier one with the same slug. */
  function SlugMap(dirname: string, folders: seq<string>, fs: FileSystem,
                   slugify: string -> string): map<string, string>
  {
    if folders == [] then map[]
    else
      var n := |folders| - 1;
      var m := SlugMap(dirname, folders[..n], fs, slugify);
      if fs.IsDir(Join(dirname, folders[n])) then m[slugify(folders[n]) := folders[n]] else m
  }

  /** Slug k is a key of the slug map exactly when some entry of the listing
      is a directory with slug k: non-directories are skipped. */
  lemma {:induction false} SlugMapKeys(dirname: string, folders: seq<string>, fs: FileSystem,
                                       slugify: string -> string, k: string)
    ensures k in SlugMap(dirname, folders, fs, slugify) <==>
            exists i :: Listed(dirname, folders, fs, slugify, i, k)
  {
    if folders != [] {
      var n := |folders| - 1;
      var prefix := folders[..n];
      var m := SlugMap(dirname, prefix, fs, slugify);
      SlugMapStep(dirname, folders, fs, slugify, k);
      SlugMapKeys(dirname, prefix, fs, slugify, k);
      ListedInPrefix(dirname, folders, fs, slugify, k);
      if k in m {
        var i :| Listed(dirname, prefix, fs, slugify, i, k);
        assert Listed(dirname, folders, fs, slugify, i, k);
      }
      if exists i :: Listed(dirname, folders, fs, slugify, i, k) {
        var i :| Listed(dirname, folders, fs, slugify, i, k);
        if i < n {
          assert Listed(dirname, prefix, fs, slugify, i, k);
        }
      }
    }
  }

  /** The last entry of the listing decides its own slug; every other slug
      keeps what the rest of the listing gave it. */
  lemma SlugMapStep(dirname: string, folders: seq<string>, fs: FileSystem,
                    slugify: string -> string, k: string)
    requires folders != []
    ensures var n := |folders| - 1;
      var m := SlugMap(dirname, folders[..n], fs, slugify);
      var big := SlugMap(dirname, folders, fs, slugify);
      if Listed(dirname, folders, fs, slugify, n, k) then k in big && big[k] == folders[n]
      else (k in big <==> k in m) && (k in m ==> big[k] == m[k])
  {
  }

  /** A slug of the slug map maps to the LAST directory entry of the listing
      with that slug: when two folders share a slug, the later one wins. */
  lemma {:induction false} SlugMapLastWins(dirname: string, folders: seq<string>, fs: FileSystem,
                                           slugify: string -> string, k: string)
    requires k in SlugMap(dirname, folders, fs, slugify)
    ensures exists i :: Listed(dirname, folders, fs, slugify, i, k) &&
              SlugMap(dirname, folders, fs, slugify)[k] == folders[i] &&
              forall j | i < j < |folders| :: !Listed(dirname, folders, fs, slugify, j, k)
  {
    var n := |folders| - 1;
    var prefix := folders[..n];
    var big := SlugMap(dirname, folders, fs, slugify);
    SlugMapStep(dirname, folders, fs, slugify, k);
    var i: int;
    if Listed(dirname, folders, fs, slugify, n, k) {
      i := n;
    } else {
      SlugMapLastWins(dirname, prefix, fs, slugify, k);
      i :| Listed(dirname, prefix, fs, slugify, i, k) &&
           SlugMap(dirname, prefix, fs, slugify)[k] == prefix[i] &&
           forall j | i < j < |prefix| :: !Listed(dirname, prefix, fs, slugify, j, k);
      ListedInPrefix(dirname, folders, fs, slugify, k);
      assert prefix[i] == folders[i];
    }
    assert Listed(dirname, folders, fs, slugify, i, k) && big[k] == folders[i];
    assert forall j | i < j < |folders| :: !Listed(dirname, folders, fs, slugify, j, k);
  }

  /** Below the last entry, an entry is listed in the listing exactly when it
      is listed in the listing without its last entry. */
  lemma ListedInPrefix(dirname: string, folders: seq<string>, fs: FileSystem,
                       slugify: string -> string, k: string)
    requires folders != []
    ensures forall j | 0 <= j < |folders| - 1 ::
              Listed(dirname, folders, fs, slugify, j, k) ==
              Listed(dirname, folders[..|folders| - 1], fs, slugify, j, k)
  {
    assert forall j | 0 <= j < |folders| - 1 :: folders[..|folders| - 1][j] == folders[j];
  }

  /** get_game_slugs_and_folders: the loop over the listing. */
  method GetGameSlugsAndFolders(dirname: string, folders: seq<string>, fs: FileSystem,
                                slugify: string -> string) returns (gameFolders: map<string, string>)
    ensures gameFolders == SlugMap(dirname, folders, fs, slugify)
  {
    gameFolders := map[];
    for i := 0 to |folders|
      invariant gameFolders == SlugMap(dirname, folders[..i], fs, slugify)
    {
      assert folders[..i + 1][..i] == folders[..i];
      var folder := folders[i];
      if !fs.IsDir(Join(dirname, folder)) {
        continue;
      }
      gameFolders := gameFolders[slugify(folder) := folder];
    }
    assert folders[..|folders|] == folders;
  }

  // ---------------------------------------------------------------------
  // Catalog entry -> folder (find_game_folder)
  // ---------------------------------------------------------------------

  /** A catalog entry as the catalog returns it; aliases are given by their slugs. */
  datatype ApiGame = ApiGame(slug: string, name: string, aliases: seq<string>)

  /** The slugs tried for an entry, in the order they are tried. */
  function Candidates(game: ApiGame): seq<string> {
    [game.slug] + game.aliases
  }

  /** Slug s names a folder of the slug map whose path exists. */
  predicate Resolves(dirname: string, slugsMap: map<string, string>, fs: FileSystem, s: string) {
    s in slugsMap && fs.Exists(Join(dirname, slugsMap[s]))
  }

  /** The first of `slugs` that resolves, as a path. */
  function FirstResolving(dirname: string, slugs: seq<string>, slugsMap: map<string, string>,
                          fs: FileSystem): (r: Option<string>)
    ensures r.None? <==> forall i | 0 <= i < |slugs| :: !Resolves(dirname, slugsMap, fs, slugs[i])
    ensures r.Some? ==> exists i | 0 <= i < |slugs| ::
              Resolves(dirname, slugsMap, fs, slugs[i]) &&
              r.value == Join(dirname, slugsMap[slugs[i]]) &&
              forall j | 0 <= j < i :: !Resolves(dirname, slugsMap, fs, slugs[j])
  {
    if slugs == [] then None
    else if Resolves(dirname, slugsMap, fs, slugs[0]) then Some(Join(dirname, slugsMap[slugs[0]]))
    else
      var r := FirstResolving(dirname, slugs[1..], slugsMap, fs);
      assert forall i | 1 <= i < |slugs| :: slugs[i] == slugs[1..][i - 1];
      if r.Some? then
        var i :| 0 <= i < |slugs[1..]| && Resolves(dirname, slugsMap, fs, slugs[1..][i]) &&
                 r.value == Join(dirname, slugsMap[slugs[1..][i]]) &&
                 forall j | 0 <= j < i :: !Resolves(dirname, slugsMap, fs, slugs[1..][j]);
        assert Resolves(dirname, slugsMap, fs, slugs[i + 1]);
        r
      else r
  }

  /** find_game_folder: the entry's own slug first, then its aliases in order;
      the first whose folder exists gives the path, and None when none does. */
  function FindGameFolder(dirname: string, game: ApiGame, slugsMap: map<string, string>,
                          fs: FileSystem): (r: Option<string>)
    ensures r.Some? ==> fs.Exists(r.value)
    ensures r.None? <==> forall s | s in Candidates(game) :: !Resolves(dirname, slugsMap, fs, s)
    ensures Resolves(dirname, slugsMap, fs, game.slug) ==> r == Some(Join(dirname, slugsMap[game.slug]))
    ensures r.Some? ==> exists i | 0 <= i < |Candidates(game)| ::
              Resolves(dirname, slugsMap, fs, Candidates(game)[i]) &&
              r.value == Join(dirname, slugsMap[Candidates(game)[i]]) &&
              forall j | 0 <= j < i :: !Resolves(dirname, slugsMap, fs, Candidates(game)[j])
  {
    var c := Candidates(game);
    var r := FirstResolving(dirname, c, slugsMap, fs);
    assert c[0] == game.slug;
    assert forall s | s in c :: exists i | 0 <= i < |c| :: c[i] == s;
    r
  }

  // ---------------------------------------------------------------------
  // Installer script -> executable (detect_game_from_installer, find_game)
  // ---------------------------------------------------------------------

  /** The `game` section of an installer script: the entries the scanner reads. */
  datatype GameSection = GameSection(exe: Option<string>, mainFile: Option<string>)

  /** An installer script: an optional `game` section and a top-level `exe`. */
  datatype Script = Script(game: Option<GameSection>, exe: Option<string>)

  datatype Installer = Installer(gameSlug: string, script: Script)

  const GameDirToken: string := "$GAMEDIR/"

  /** The relative executable an installer names: `game.exe`; the top-level
      `exe` only when there is no `game` section; `game.main_file` when the
      first choice is empty. None when nothing non-empty is found. */
  function ExePath(script: Script): (r: Option<string>)
    ensures r.Some? ==> r.value != ""
    ensures script.game.Some? && TruthyString(script.game.value.exe) ==> r == script.game.value.exe
    ensures script.game.Some? && !TruthyString(script.game.value.exe) ==>
              r == (if TruthyString(script.game.value.mainFile) then script.game.value.mainFile else None)
    ensures script.game.None? ==> r == (if TruthyString(script.exe) then script.exe else None)
  {
    var first := match script.game
      case Some(section) => section.exe
      case None => script.exe;
    var chosen :=
      if !TruthyString(first) && script.game.Some? then script.game.value.mainFile else first;
    if TruthyString(chosen) then chosen else None
  }

  /** detect_game_from_installer. `folder` is None when no folder was found for
      the entry; joining None to a path raises TypeError. */
  function DetectGameFromInstaller(folder: Option<string>, installer: Installer,
                                   fs: FileSystem): (r: Result<Option<string>>)
    ensures r.Err? <==> ExePath(installer.script).Some? && folder.None?
    ensures r.Err? ==> r.error == TypeError
    ensures ExePath(installer.script).None? ==> r == Ok(None)
    ensures r.Ok? && r.value.Some? ==>
              fs.Exists(r.value.value) &&
              r.value.value == Join(folder.value, RemoveAll(ExePath(installer.script).value, GameDirToken))
    ensures folder.Some? && ExePath(installer.script).Some? &&
            fs.Exists(Join(folder.value, RemoveAll(ExePath(installer.script).value, GameDirToken))) ==>
              r == Ok(Some(Join(folder.value, RemoveAll(ExePath(installer.script).value, GameDirToken))))
  {
    match ExePath(installer.script)
    case None => Ok(None)
    case Some(exe) =>
      if folder.None? then Err(TypeError)
      else
        var fullPath := Join(folder.value, RemoveAll(exe, GameDirToken));
        if fs.Exists(fullPath) then Ok(Some(fullPath)) else Ok(None)
  }

  /** Installer `installer` gives no usable path (find_game's `if full_path` fails). */
  predicate Misses(folder: Option<string>, installer: Installer, fs: FileSystem) {
    var d := DetectGameFromInstaller(folder, installer, fs);
    d.Ok? && (d.value.None? || d.value.value == "")
  }

  /** find_game: the first installer, in the catalog's order, that yields a
      path; an exception from one installer ends the search. A path is only
      found when there is a folder to look in. */
  function FindGame(folder: Option<string>, installers: seq<Installer>,
                    fs: FileSystem): (r: Result<Option<(string, Installer)>>)
    ensures r.Ok? && r.value.Some? ==> folder.Some? && r.value.value.0 != ""
  {
    if installers == [] then Ok(None)
    else
      var d := DetectGameFromInstaller(folder, installers[0], fs);
      if d.Err? then Err(d.error)
      else if d.value.Some? && d.value.value != "" then Ok(Some((d.value.value, installers[0])))
      else FindGame(folder, installers[1..], fs)
  }

  /** find_game returns (None, None) exactly when every installer misses. */
  lemma {:induction false} FindGameNoneIffAllMiss(folder: Option<string>, installers: seq<Installer>,
                                                  fs: FileSystem)
    ensures FindGame(folder, installers, fs) == Ok(None) <==>
              forall i | 0 <= i < |installers| :: Misses(folder, installers[i], fs)
    decreases |installers|
  {
    if installers != [] && Misses(folder, installers[0], fs) {
      var rest := installers[1..];
      FindGameNoneIffAllMiss(folder, rest, fs);
      assert forall i | 1 <= i < |installers| :: installers[i] == rest[i - 1];
    }
  }

  /** A path find_game returns comes from the first installer that does not
      miss. */
  lemma {:induction false} FindGameFirstFound(folder: Option<string>, installers: seq<Installer>,
                                              fs: FileSystem)
    requires FindGame(folder, installers, fs).Ok? && FindGame(folder, installers, fs).value.Some?
    ensures var found := FindGame(folder, installers, fs).value.value;
      exists i | 0 <= i < |installers| ::
        installers[i] == found.1 &&
        DetectGameFromInstaller(folder, installers[i], fs) == Ok(Some(found.0)) &&
        forall j | 0 <= j < i :: Misses(folder, installers[j], fs)
    decreases |installers|
  {
    var found := FindGame(folder, installers, fs).value.value;
    if Misses(folder, installers[0], fs) {
      var rest := installers[1..];
      FindGameFirstFound(folder, rest, fs);
      var i :| 0 <= i < |rest| && rest[i] == found.1 &&
               DetectGameFromInstaller(folder, rest[i], fs) == Ok(Some(found.0)) &&
               forall j | 0 <= j < i :: Misses(folder, rest[j], fs);
      assert forall j | 1 <= j <= i :: installers[j] == rest[j - 1];
      assert installers[i + 1] == rest[i];
    }
  }

  /** An exception find_game raises comes from the first installer that does
      not miss. */
  lemma {:induction false} FindGameFirstRaises(folder: Option<string>, installers: seq<Installer>,
                                               fs: FileSystem)
    requires FindGame(folder, installers, fs).Err?
    ensures exists i | 0 <= i < |installers| ::
              DetectGameFromInstaller(folder, installers[i], fs).Err? &&
              forall j | 0 <= j < i :: Misses(folder, installers[j], fs)
    decreases |installers|
  {
    if Misses(folder, installers[0], fs) {
      var rest := installers[1..];
      FindGameFirstRaises(folder, rest, fs);
      var i :| 0 <= i < |rest| && DetectGameFromInstaller(folder, rest[i], fs).Err? &&
               forall j | 0 <= j < i :: Misses(folder, rest[j], fs);
      assert forall j | 1 <= j <= i :: installers[j] == rest[j - 1];
      assert installers[i + 1] == rest[i];
    }
  }
}
