/** A scan of a directory of games (scan_directory in lutris/scanners/lutris.py):
    folders are matched against catalog entries, an install is triggered for
    each newly recognised game, and the slug map is split into the installed
    and the still-missing folders.

    The catalog's answer, its installer scripts, the library's rows and the
    install collaborator's failures are inputs. The side effects of the scan
    are returned as the sequence of install attempts and media downloads, in
    the order they happen. */
module DirectoryScanner {
  import opened PyValues
  import opened Paths
  import opened DirectoryMatcher

  // ---------------------------------------------------------------------
  // Directories already claimed by the library (get_used_directories)
  // ---------------------------------------------------------------------

  /** The `directory` column of one row of the games table. */
  datatype DbGame = DbGame(directory: Option<string>)

  /** The directories the library's games are installed in. */
  function UsedDirectories(games: seq<DbGame>): set<string> {
    set i | 0 <= i < |games| && TruthyString(games[i].directory) :: games[i].directory.value
  }

  /** get_used_directories: the non-empty directories of the library's games. */
  method GetUsedDirectories(games: seq<DbGame>) returns (directories: set<string>)
    ensures forall d :: d in directories <==>
              exists i | 0 <= i < |games| :: games[i].directory == Some(d) && d != ""
    ensures directories == UsedDirectories(games)
  {
    directories := {};
    for i := 0 to |games|
      invariant forall d :: d in directories <==>
                  exists j | 0 <= j < i :: games[j].directory == Some(d) && d != ""
    {
      if TruthyString(games[i].directory) {
        directories := directories + {games[i].directory.value};
      }
    }
  }

  // ---------------------------------------------------------------------
  // The scan, one catalog entry at a time
  // ---------------------------------------------------------------------

  /** One call of install_game: which catalog entry caused it, the installer,
      the target folder, and whether it raised MissingGameDependencyError. */
  datatype InstallCall = InstallCall(apiSlug: string, installer: Installer, folder: string,
                                     dependencyMissing: bool)

  /** What the scan has done so far: `slugs_seen`, `slugs_installed`, the
      installs and the media downloads (by installer game slug). */
  datatype ScanState = ScanState(seen: set<string>, installed: set<string>,
                                 installs: seq<InstallCall>, downloads: seq<string>)

  /** What the scan reads besides the directory: the slug map, the used
      directories, the catalog's installers by slug, and which install calls
      raise MissingGameDependencyError. */
  datatype ScanInputs = ScanInputs(dirname: string, slugsMap: map<string, string>, fs: FileSystem,
                                   usedDirs: set<string>,
                                   installersOf: string -> seq<Installer>,
                                   dependencyMissing: (Installer, string) -> bool)

  /** An entry met for the first time is marked installed when its folder is
      already used by the library, or when one of its installers finds its
      executable in the folder. */
  predicate Recognised(game: ApiGame, inp: ScanInputs) {
    var folder := FindGameFolder(inp.dirname, game, inp.slugsMap, inp.fs);
    || (folder.Some? && folder.value in inp.usedDirs)
    || (var found := FindGame(folder, inp.installersOf(game.slug), inp.fs); found.Ok? && found.value.Some?)
  }

  /** The body of the loop of scan_directory for catalog entry `game`. */
  function ScanStep(st: ScanState, game: ApiGame, inp: ScanInputs): (r: Result<ScanState>)
    ensures game.slug in st.seen ==> r == Ok(st)
    ensures r.Ok? ==> r.value.seen == st.seen + {game.slug}
    ensures r.Ok? ==> st.installed <= r.value.installed <= st.installed + {game.slug}
    ensures r.Ok? ==> st.installs <= r.value.installs && |r.value.installs| <= |st.installs| + 1
    ensures r.Ok? ==> st.downloads <= r.value.downloads
    ensures r.Ok? ==> |r.value.installs| - |st.installs| == |r.value.downloads| - |st.downloads|
    ensures r.Ok? && |r.value.installs| > |st.installs| ==>
              game.slug !in st.seen && game.slug in r.value.installed &&
              r.value.installs[|st.installs|].apiSlug == game.slug
    ensures r.Err? ==> game.slug !in st.seen
    ensures var folder := FindGameFolder(inp.dirname, game, inp.slugsMap, inp.fs);
      game.slug !in st.seen && folder.Some? && folder.value in inp.usedDirs ==>
        r == Ok(st.(seen := st.seen + {game.slug}, installed := st.installed + {game.slug}))
    ensures r.Ok? && game.slug !in st.seen ==>
              r.value.installed == st.installed + (if Recognised(game, inp) then {game.slug} else {})
  {
    if game.slug in st.seen then Ok(st)
    else
      var seen := st.seen + {game.slug};
      var folder := FindGameFolder(inp.dirname, game, inp.slugsMap, inp.fs);
      if folder.Some? && folder.value in inp.usedDirs then
        Ok(st.(seen := seen, installed := st.installed + {game.slug}))
      else
        match FindGame(folder, inp.installersOf(game.slug), inp.fs)
        case Err(e) => Err(e)
        case Ok(None) => Ok(st.(seen := seen))
        case Ok(Some(found)) =>
          var installer := found.1;
          var call := InstallCall(game.slug, installer, folder.value,
                                  inp.dependencyMissing(installer, folder.value));
          Ok(ScanState(seen, st.installed + {game.slug}, st.installs + [call],
                       st.downloads + [installer.gameSlug]))
  }

  /** For an entry met for the first time whose folder is not already in use,
      the step follows find_game: its exception aborts the scan; no executable
      only marks the slug seen; a found executable installs the game into the
      folder with the installer that found it, downloads that installer's
      media and marks the slug installed. */
  lemma ScanStepFollowsFindGame(st: ScanState, game: ApiGame, inp: ScanInputs)
    requires game.slug !in st.seen
    ensures var folder := FindGameFolder(inp.dirname, game, inp.slugsMap, inp.fs);
      var found := FindGame(folder, inp.installersOf(game.slug), inp.fs);
      var r := ScanStep(st, game, inp);
      !(folder.Some? && folder.value in inp.usedDirs) ==>
        && (r.Err? <==> found.Err?)
        && (found.Err? ==> r.error == found.error)
        && (found == Ok(None) ==> r == Ok(st.(seen := st.seen + {game.slug})))
        && (found.Ok? && found.value.Some? ==>
              var installer := found.value.value.1;
              r == Ok(ScanState(st.seen + {game.slug}, st.installed + {game.slug},
                                st.installs + [InstallCall(game.slug, installer, folder.value,
                                                           inp.dependencyMissing(installer, folder.value))],
                                st.downloads + [installer.gameSlug])))
  {
  }

  /** The loop of scan_directory over the catalog's entries, in order; an
      exception from one entry aborts the whole scan. */
  function ScanFold(games: seq<ApiGame>, inp: ScanInputs): Result<ScanState>
  {
    if games == [] then Ok(ScanState({}, {}, [], []))
    else
      match ScanFold(games[..|games| - 1], inp)
      case Err(e) => Err(e)
      case Ok(st) => ScanStep(st, games[|games| - 1], inp)
  }

  /** The two maps scan_directory returns. */
  datatype ScanResult = ScanResult(installedMap: map<string, string>, missingMap: map<string, string>,
                                   installs: seq<InstallCall>, downloads: seq<string>)

  function Partition(slugsMap: map<string, string>, st: ScanState): ScanResult {
    ScanResult(map slug | slug in slugsMap && slug in st.installed :: slugsMap[slug],
               map slug | slug in slugsMap && slug !in st.installed :: slugsMap[slug],
               st.installs, st.downloads)
  }

  /** What the loop of scan_directory reads, computed from the directory and
      the library. */
  function InputsOf(dirname: string, listing: seq<string>, fs: FileSystem,
                    slugify: string -> string, dbGames: seq<DbGame>,
                    installersOf: string -> seq<Installer>,
                    dependencyMissing: (Installer, string) -> bool): ScanInputs
  {
    ScanInputs(dirname, SlugMap(dirname, listing, fs, slugify), fs,
               UsedDirectories(dbGames), installersOf, dependencyMissing)
  }

  /** What scan_directory returns, as a function of everything it reads. */
  function ScanOutcome(dirname: string, listing: seq<string>, fs: FileSystem,
                       slugify: string -> string, dbGames: seq<DbGame>, apiGames: seq<ApiGame>,
                       installersOf: string -> seq<Installer>,
                       dependencyMissing: (Installer, string) -> bool): Result<ScanResult>
  {
    var inp := InputsOf(dirname, listing, fs, slugify, dbGames, installersOf, dependencyMissing);
    match ScanFold(apiGames, inp)
    case Err(e) => Err(e)
    case Ok(st) => Ok(Partition(inp.slugsMap, st))
  }

  /** scan_directory: match the catalog's entries against the folders of
      `dirname` and split the folders into installed and missing. */
  method ScanDirectory(dirname: string, listing: seq<string>, fs: FileSystem,
                       slugify: string -> string, dbGames: seq<DbGame>, apiGames: seq<ApiGame>,
                       installersOf: string -> seq<Installer>,
                       dependencyMissing: (Installer, string) -> bool)
    returns (r: Result<ScanResult>)
    ensures var slugsMap := SlugMap(dirname, listing, fs, slugify);
      r.Ok? ==>
        && r.value.installedMap.Keys !! r.value.missingMap.Keys
        && r.value.installedMap.Keys + r.value.missingMap.Keys == slugsMap.Keys
        && (forall s | s in r.value.installedMap :: r.value.installedMap[s] == slugsMap[s])
        && (forall s | s in r.value.missingMap :: r.value.missingMap[s] == slugsMap[s])
    ensures var inp := InputsOf(dirname, listing, fs, slugify, dbGames, installersOf, dependencyMissing);
      r.Ok? ==> forall s :: s in r.value.installedMap <==>
                  s in inp.slugsMap && exists i :: FirstWithSlug(apiGames, i, s) && Recognised(apiGames[i], inp)
    ensures r == ScanOutcome(dirname, listing, fs, slugify, dbGames, apiGames,
                             installersOf, dependencyMissing)
  {
    var slugsMap := GetGameSlugsAndFolders(dirname, listing, fs, slugify);
    var directories := GetUsedDirectories(dbGames);
    var inp := ScanInputs(dirname, slugsMap, fs, directories, installersOf, dependencyMissing);
    var scanned := ScanCatalog(apiGames, inp);
    if scanned.Err? {
      return Err(scanned.error);
    }
    var slugsInstalled := scanned.value.installed;
    var installedMap := map slug | slug in slugsMap && slug in slugsInstalled :: slugsMap[slug];
    var missingMap := map slug | slug in slugsMap && slug !in slugsInstalled :: slugsMap[slug];
    r := Ok(ScanResult(installedMap, missingMap, scanned.value.installs, scanned.value.downloads));
    forall s {
      ScanInstalledIffRecognised(apiGames, inp, s);
    }
  }

  /** The loop of scan_directory over the catalog's entries. */
  method ScanCatalog(apiGames: seq<ApiGame>, inp: ScanInputs) returns (r: Result<ScanState>)
    ensures r == ScanFold(apiGames, inp)
  {
    var slugsSeen: set<string> := {};
    var slugsInstalled: set<string> := {};
    var installs: seq<InstallCall> := [];
    var downloads: seq<string> := [];
    for i := 0 to |apiGames|
      invariant ScanFold(apiGames[..i], inp) == Ok(ScanState(slugsSeen, slugsInstalled, installs, downloads))
    {
      assert apiGames[..i + 1][..i] == apiGames[..i];
      var apiGame := apiGames[i];
      if apiGame.slug in slugsSeen {
        continue;
      }
      slugsSeen := slugsSeen + {apiGame.slug};
      var gameFolder := FindGameFolder(inp.dirname, apiGame, inp.slugsMap, inp.fs);
      if gameFolder.Some? && gameFolder.value in inp.usedDirs {
        slugsInstalled := slugsInstalled + {apiGame.slug};
        continue;
      }
      var found := FindGame(gameFolder, inp.installersOf(apiGame.slug), inp.fs);
      if found.Err? {
        assert ScanFold(apiGames[..i + 1], inp).Err?;
        ScanFoldErrSticks(apiGames, i + 1, inp);
        assert apiGames[..|apiGames|] == apiGames;
        return Err(found.error);
      }
      if found.value.Some? {
        var (fullPath, installer) := found.value.value;
        // install_game; a MissingGameDependencyError is logged and the scan goes on
        installs := installs + [InstallCall(apiGame.slug, installer, gameFolder.value,
                                            inp.dependencyMissing(installer, gameFolder.value))];
        downloads := downloads + [installer.gameSlug];
        slugsInstalled := slugsInstalled + {apiGame.slug};
      }
    }
    assert apiGames[..|apiGames|] == apiGames;
    r := Ok(ScanState(slugsSeen, slugsInstalled, installs, downloads));
  }

  /** Once an entry raised, the scan has failed whatever entries follow. */
  lemma {:induction false} ScanFoldErrSticks(games: seq<ApiGame>, k: nat, inp: ScanInputs)
    requires k <= |games| && ScanFold(games[..k], inp).Err?
    ensures ScanFold(games, inp) == ScanFold(games[..k], inp)
    decreases |games| - k
  {
    if k < |games| {
      assert games[..k + 1][..k] == games[..k];
      ScanFoldErrSticks(games, k + 1, inp);
    } else {
      assert games[..k] == games;
    }
  }

  // ---------------------------------------------------------------------
  // Properties of the scan
  // ---------------------------------------------------------------------

  /** Every install was caused by a distinct slug that is marked installed,
      every installed slug was seen, and each install has its media download. */
  ghost predicate InstallsOncePerSlug(st: ScanState) {
    && st.installed <= st.seen
    && |st.installs| == |st.downloads|
    && (forall i | 0 <= i < |st.installs| :: st.installs[i].apiSlug in st.installed)
    && (forall i, j | 0 <= i < j < |st.installs| :: st.installs[i].apiSlug != st.installs[j].apiSlug)
  }

  lemma StepKeepsInstallsOncePerSlug(st: ScanState, game: ApiGame, inp: ScanInputs)
    requires InstallsOncePerSlug(st) && ScanStep(st, game, inp).Ok?
    ensures InstallsOncePerSlug(ScanStep(st, game, inp).value)
  {
    InstallsOnceGrow(st, ScanStep(st, game, inp).value, game.slug);
  }

  /** The invariant survives any change that ScanStep's contract allows. */
  lemma InstallsOnceGrow(st: ScanState, st': ScanState, slug: string)
    requires InstallsOncePerSlug(st)
    requires st'.seen == st.seen + {slug}
    requires st.installed <= st'.installed <= st.installed + {slug}
    requires st.installs <= st'.installs && |st'.installs| <= |st.installs| + 1
    requires |st'.installs| - |st.installs| == |st'.downloads| - |st.downloads|
    requires |st'.installs| > |st.installs| ==>
               slug !in st.seen && slug in st'.installed && st'.installs[|st.installs|].apiSlug == slug
    ensures InstallsOncePerSlug(st')
  {
    var n := |st.installs|;
    assert forall i | 0 <= i < n :: st'.installs[i] == st.installs[i];
  }

  /** After a successful scan, the slugs seen are exactly the catalog slugs,
      and each catalog slug caused at most one install: duplicates in the
      catalog's answer are skipped. */
  lemma {:induction false} ScanInstallsOncePerSlug(games: seq<ApiGame>, inp: ScanInputs)
    requires ScanFold(games, inp).Ok?
    ensures ScanFold(games, inp).value.seen == (set g | g in games :: g.slug)
    ensures InstallsOncePerSlug(ScanFold(games, inp).value)
  {
    if games != [] {
      var n := |games| - 1;
      ScanFoldStep(games, inp);
      ScanInstallsOncePerSlug(games[..n], inp);
      var st := ScanFold(games[..n], inp).value;
      StepKeepsInstallsOncePerSlug(st, games[n], inp);
      SlugsOfSnoc(games);
    }
  }

  /** Entry i is the first entry of the catalog with slug s; later entries
      with that slug are skipped as already seen. */
  predicate FirstWithSlug(games: seq<ApiGame>, i: int, s: string) {
    0 <= i < |games| && games[i].slug == s && forall j | 0 <= j < i :: games[j].slug != s
  }

  /** After a successful scan, a slug is installed exactly when the first
      catalog entry with that slug was recognised: its folder was already in
      use, or one of its installers found the executable. An entry whose
      installers all miss leaves its slug uninstalled. */
  lemma {:induction false} ScanInstalledIffRecognised(games: seq<ApiGame>, inp: ScanInputs, s: string)
    requires ScanFold(games, inp).Ok?
    ensures s in ScanFold(games, inp).value.installed <==>
              exists i :: FirstWithSlug(games, i, s) && Recognised(games[i], inp)
  {
    if games != [] {
      var n := |games| - 1;
      var prefix := games[..n];
      ScanFoldStep(games, inp);
      ScanInstalledIffRecognised(prefix, inp, s);
      ScanInstallsOncePerSlug(prefix, inp);
      FirstWithSlugSnoc(games, s);
      var st := ScanFold(prefix, inp).value;
      InstalledStep(st, ScanFold(games, inp).value, games[n].slug, Recognised(games[n], inp), s);
    }
  }

  /** The first entry with slug s is the first entry of all but the last
      entry with that slug, or the last entry when no earlier one has it. */
  lemma FirstWithSlugSnoc(games: seq<ApiGame>, s: string)
    requires games != []
    ensures var n := |games| - 1;
      && (forall i | 0 <= i < n :: FirstWithSlug(games, i, s) == FirstWithSlug(games[..n], i, s))
      && (FirstWithSlug(games, n, s) <==> games[n].slug == s && s !in (set g | g in games[..n] :: g.slug))
  {
    var n := |games| - 1;
    var prefix := games[..n];
    assert forall i | 0 <= i < n :: prefix[i] == games[i];
    if s in (set g | g in prefix :: g.slug) {
      var j :| j in prefix && j.slug == s;
      var k :| 0 <= k < n && prefix[k] == j;
      assert games[k].slug == s;
    } else {
      forall j | 0 <= j < n ensures games[j].slug != s {
        assert prefix[j] in prefix;
      }
    }
  }

  /** One step of the scan as the contract of ScanStep describes it keeps
      "installed iff the first entry with the slug was recognised". */
  lemma InstalledStep(st: ScanState, st': ScanState, slug: string, recognised: bool, s: string)
    requires st.installed <= st.seen
    requires slug in st.seen ==> st' == st
    requires slug !in st.seen ==> st'.installed == st.installed + (if recognised then {slug} else {})
    ensures s in st'.installed <==>
              (s in st.installed || (slug !in st.seen && slug == s && recognised))
  {
  }

  /** A scan that succeeds extends the scan of all but the last entry. */
  lemma ScanFoldStep(games: seq<ApiGame>, inp: ScanInputs)
    requires games != [] && ScanFold(games, inp).Ok?
    ensures ScanFold(games[..|games| - 1], inp).Ok?
    ensures ScanFold(games, inp) == ScanStep(ScanFold(games[..|games| - 1], inp).value, games[|games| - 1], inp)
  {
  }

  lemma SlugsOfSnoc(games: seq<ApiGame>)
    requires games != []
    ensures (set g | g in games :: g.slug) ==
            (set g | g in games[..|games| - 1] :: g.slug) + {games[|games| - 1].slug}
  {
    assert games == games[..|games| - 1] + [games[|games| - 1]];
  }

  /** A MissingGameDependencyError changes nothing but the record of the
      install attempt: the slug is still marked installed, and the scan fails
      or succeeds alike. */
  lemma {:induction false} ScanIgnoresDependencyErrors(games: seq<ApiGame>, inp: ScanInputs,
                                                       other: (Installer, string) -> bool)
    ensures var r1 := ScanFold(games, inp);
      var r2 := ScanFold(games, inp.(dependencyMissing := other));
      && r1.Ok? == r2.Ok?
      && (r1.Ok? ==> r1.value.seen == r2.value.seen && r1.value.installed == r2.value.installed &&
                     r1.value.downloads == r2.value.downloads &&
                     |r1.value.installs| == |r2.value.installs|)
  {
    if games != [] {
      var n := |games| - 1;
      ScanIgnoresDependencyErrors(games[..n], inp, other);
      var r1 := ScanFold(games[..n], inp);
      var r2 := ScanFold(games[..n], inp.(dependencyMissing := other));
      if r1.Ok? {
        StepIgnoresDependencyErrors(r1.value, r2.value, games[n], inp, other);
      }
    }
  }

  /** One step from two states that differ only in the recorded outcome of
      earlier installs leads to two such states again. */
  lemma StepIgnoresDependencyErrors(st1: ScanState, st2: ScanState, game: ApiGame, inp: ScanInputs,
                                    other: (Installer, string) -> bool)
    requires st1.seen == st2.seen && st1.installed == st2.installed
    requires st1.downloads == st2.downloads && |st1.installs| == |st2.installs|
    ensures var r1 := ScanStep(st1, game, inp);
      var r2 := ScanStep(st2, game, inp.(dependencyMissing := other));
      && r1.Ok? == r2.Ok?
      && (r1.Ok? ==> r1.value.seen == r2.value.seen && r1.value.installed == r2.value.installed &&
                     r1.value.downloads == r2.value.downloads &&
                     |r1.value.installs| == |r2.value.installs|)
  {
  }
}
