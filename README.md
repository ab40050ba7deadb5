# Lutris core logic in Dafny

This project models three parts of Lutris, the Linux game manager, and
proves properties of the model.

- **Game-directory reconciliation** (`lutris/scanners/lutris.py`). This covers:
  - building the slug map of a directory;
  - matching catalog entries to folders by slug, then by alias;
  - picking an executable from an installer script;
  - `scan_directory`, which splits the folders into installed and missing;
  - deriving a game's entry-point path from its configuration;
  - the JSON path cache and its in-process copy;
  - the `MissingGames` tracker, which rechecks cached paths on disk and
    keeps the set of games whose files are gone.
- **Categories** (`lutris/database/categories.py`). This covers:
  - category-name normalisation and reserved names;
  - grouping the `games_categories` rows by game;
  - merging the smart categories into the sorted list of selected game ids;
  - removing unused categories, except "favorite";
  - the ids of the smart categories.
- **The generic runner** (`lutris/runners/runner.py`). This covers:
  - the architecture a machine name stands for;
  - option lists turned into dicts, and their defaults;
  - the `game_config`, `runner_config` and `system_config` cascades;
  - `game_path` and `browse_dir`.

Everything outside these files is a parameter, so the model reads nothing
itself:

- **Files, directories and home directories.** `Paths.FileSystem` is the set
  of existing paths and directories. `Paths.UserDirs` holds `$HOME` and the
  password database, for `~` expansion.
- **Directory listing.** A `seq<string>`.
- **Catalog and installers.** Sequences of `ApiGame` and `Installer`.
- **`slugify`.** A function parameter.
- **Install attempts.** A predicate says when an install raises
  `MissingGameDependencyError`.
- **Game library rows.** Values.
- **Path-cache file.** A `CacheFile`: absent, undecodable, or a JSON map.
- **Database tables.** A `Categories.Db` value.
- **LutrisConfig data.** A `RunnerConfig.Environment`.

Python exceptions become `Result.Err` with the exception class. Examples:
- `TypeError` when `os.path.join` gets `None`;
- `IndexError` for `[][0]`;
- `ValueError` from `options_as_dict`;
- `FileNotFound` when opening a missing cache file.

Python dicts whose iteration order matters are modelled as ordered item lists
(`PyDicts.Dict`, in `ordered_dict.dfy`). Plain Dafny maps are used where only
lookups matter.

Behaviour of the code a reader might not expect, which the model follows:

- **Missing cache file.** `read_path_cache` catches only JSON decode errors.
  A missing cache file makes `open` raise, so `ReadPathCache(Absent)` is
  `Err(FileNotFound)`, not an empty map (lines 203-209).
- **Game with no cached path.** The worker leaves such a game untouched. It
  does not add it to the missing set (line 263).
- **Dependency error during a scan.** After `MissingGameDependencyError` the
  slug is still marked installed, and the media download still happens
  (lines 103-108).
- **Notifications.** These fire not only at the end of a pass. When
  something has changed, they also fire each time the worker moves newly
  arrived games into its queue (line 299).
- **Rebuilding the cache.** `build_path_cache` opens the file for writing,
  which truncates it, before it derives the paths. If the derivation raises,
  the file is left empty rather than unchanged (lines 162-164).

## Model

| member | source | states |
|---|---|---|
| DirectoryMatcher.SlugMapKeys | lutris/scanners/lutris.py:22-30 | a slug is a key exactly when some listed entry is a directory with that slug; non-directories never contribute |
| DirectoryMatcher.SlugMapLastWins | lutris/scanners/lutris.py:26-29 | a slug maps to the last directory entry with that slug; no later entry has it |
| DirectoryMatcher.GetGameSlugsAndFolders | lutris/scanners/lutris.py:22-30 | the loop builds exactly the slug map of the listing |
| DirectoryMatcher.FirstResolving | lutris/scanners/lutris.py:34-42 | None iff no slug resolves; otherwise the path of the first resolving slug, with every earlier slug failing |
| DirectoryMatcher.FindGameFolder | lutris/scanners/lutris.py:33-42 | a returned folder exists; the primary slug wins when it resolves; otherwise the first resolving alias in order; None iff neither the slug nor any alias resolves |
| DirectoryMatcher.ExePath | lutris/scanners/lutris.py:46-56 | `game.exe` first; the top-level `exe` only when there is no `game` section; then `game.main_file`; never an empty path |
| DirectoryMatcher.DetectGameFromInstaller | lutris/scanners/lutris.py:45-60 | no executable gives None; an executable with no folder raises TypeError; the folder joined with the executable minus `$GAMEDIR/` is returned exactly when that path exists, and None otherwise |
| DirectoryMatcher.FindGame | lutris/scanners/lutris.py:63-69 | a path is found only when there is a folder to look in, and it is never empty |
| DirectoryMatcher.FindGameNoneIffAllMiss | lutris/scanners/lutris.py:63-69 | (None, None) exactly when every installer yields no path without raising |
| DirectoryMatcher.FindGameFirstFound | lutris/scanners/lutris.py:63-69 | a found path and installer come from the first installer, in order, that does not miss; every earlier one missed |
| DirectoryMatcher.FindGameFirstRaises | lutris/scanners/lutris.py:63-69 | an exception comes from an installer whose detection raises, with every earlier installer missing |
| DirectoryScanner.GetUsedDirectories | lutris/scanners/lutris.py:72-77 | exactly the non-empty directories of the library's games |
| DirectoryScanner.ScanStep | lutris/scanners/lutris.py:92-108 | a seen slug changes nothing; a new slug is marked installed exactly when it is recognised (its folder is already in use, or an installer finds its executable); a folder in use only marks the slug seen and installed; earlier installs and downloads are kept, and at most one of each is added per step, recorded together and only for the new slug |
| DirectoryScanner.ScanStepFollowsFindGame | lutris/scanners/lutris.py:100-108 | for a new slug whose folder is not in use: find_game's exception aborts the step; no executable only marks the slug seen; a found executable adds exactly one install of that installer into the folder, the download of the installer's game slug, and the installed slug |
| DirectoryScanner.ScanDirectory | lutris/scanners/lutris.py:86-112 | installed and missing maps are disjoint, their keys together are the slug map's keys, and every folder is the slug map's folder; a slug is in the installed map exactly when it is a folder's slug and the first catalog entry with that slug was recognised |
| DirectoryScanner.ScanCatalog | lutris/scanners/lutris.py:90-108 | the loop over the catalog computes the fold of ScanStep, stopping at the first exception |
| DirectoryScanner.ScanFoldErrSticks | lutris/scanners/lutris.py:92-108 | an exception from one catalog entry aborts the scan whatever entries follow |
| DirectoryScanner.StepKeepsInstallsOncePerSlug | lutris/scanners/lutris.py:93-95 | one step keeps every install attempt for a distinct catalog slug |
| DirectoryScanner.ScanInstallsOncePerSlug | lutris/scanners/lutris.py:90-95 | after a scan the seen slugs are exactly the catalog's slugs, and no slug was installed twice |
| DirectoryScanner.ScanIgnoresDependencyErrors | lutris/scanners/lutris.py:103-108 | whether installs raise MissingGameDependencyError changes neither success, the seen and installed slugs, the downloads, nor the number of install attempts |
| DirectoryScanner.ScanInstalledIffRecognised | lutris/scanners/lutris.py:90-108 | after a scan a slug is installed exactly when the first catalog entry with that slug had its folder in use or an executable found; later entries with the slug are skipped |
| PathCache.FirstItem | lutris/scanners/lutris.py:130-131 | `files[0]`: the first item of a list, or the first character of a string; IndexError when empty; TypeError for other values |
| PathCache.EntryPath | lutris/scanners/lutris.py:133-137 | a derived path is never empty |
| PathCache.Probe | lutris/scanners/lutris.py:128-137 | a key is skipped exactly when it is absent or its value (for files, its first item) is falsy; a non-empty string value, or a non-empty string `files[0]`, is made into the entry path; a truthy value that is not a string raises TypeError; an error from `files[0]` is passed on; a derived path is never empty |
| PathCache.ProbeKeysFirstSet | lutris/scanners/lutris.py:127-140 | "" iff no key in the list is present and set; otherwise the first such key decides |
| PathCache.PathFromConfig | lutris/scanners/lutris.py:115-140 | "" without a config; "" for mame with a dot-less main_file; the error of the dot test when main_file is not a string or list; otherwise, dotted mame main_file included, the key probe in the order exe, main_file, iso, rom, disk-a, path, files |
| PathCache.PathFromFirstSetKey | lutris/scanners/lutris.py:127-137 | a non-empty path comes from some key of the order, with every earlier key absent or unset |
| PathCache.ExeBeforeOtherKeys | lutris/scanners/lutris.py:127-137 | for a runner other than mame, a non-empty exe decides the path whatever other keys hold |
| PathCache.RelativePathJoinedToDirectory | lutris/scanners/lutris.py:134-137 | an absolute value is kept as it is; a relative one is joined to the game directory and starts with it |
| PathCache.AddGame | lutris/scanners/lutris.py:147-153 | steam and web games and games with an empty path leave the map unchanged; a cached game's id maps to its derived path, replacing an old entry; no other key changes or appears; an error exactly when the path derivation raises |
| PathCache.GamePathsKeys | lutris/scanners/lutris.py:143-154 | every game that is neither remote nor pathless has its id in the map |
| PathCache.GamePathsValues | lutris/scanners/lutris.py:143-154 | every key of the map is the id of a cached game and maps to that game's derived path |
| PathCache.GetGamePaths | lutris/scanners/lutris.py:143-154 | the loop computes the fold over the installed games |
| PathCache.GamePathsErrSticks | lutris/scanners/lutris.py:143-154 | an exception from one game aborts get_game_paths |
| PathCache.ReadPathCache | lutris/scanners/lutris.py:203-209 | a decode error reads as an empty map; a missing file raises (and only a missing file does) |
| PathCache.PathCacheStore.GetPathCache | lutris/scanners/lutris.py:196-200 | the kept copy is returned when present; otherwise the file is read and a successful read is kept |
| PathCache.PathCacheStore.BuildPathCache | lutris/scanners/lutris.py:157-167 | no-op when the file exists and recreate is false; otherwise the file holds exactly the game paths and the copy is cleared, or it stays truncated when they raise |
| PathCache.PathCacheStore.AddToPathCache | lutris/scanners/lutris.py:170-181 | an empty derived path leaves file and copy alone; otherwise a read gives the game's path and every other entry unchanged |
| PathCache.PathCacheStore.RemoveFromPathCache | lutris/scanners/lutris.py:184-193 | an id that is not cached writes nothing; otherwise a read gives the old map without exactly that id |
| MissingGamesTracker.Reclassify | lutris/scanners/lutris.py:261-270 | a checked game with a cached path is missing exactly when the path does not exist; every other game keeps its status |
| MissingGamesTracker.ReclassifyCompose | lutris/scanners/lutris.py:256-270 | checking two batches one after another equals checking their union |
| MissingGamesTracker.ReclassifyIdempotent | lutris/scanners/lutris.py:261-270 | checking the same games twice changes nothing more |
| MissingGamesTracker.ReclassifyBackToStart | lutris/scanners/lutris.py:261-270 | if checking one more game brings the missing set back to where the earlier checks started, those earlier checks changed nothing |
| MissingGamesTracker.MissingGames.constructor | lutris/scanners/lutris.py:218-224 | nothing missing, no worker, an empty queue, no flags set |
| MissingGamesTracker.MissingGames.UpdateMissing | lutris/scanners/lutris.py:232-248 | the ids join the waiting set; a worker is scheduled only when none runs, after CHECK_STALL seconds for explicit ids and 0 otherwise; nothing else changes |
| MissingGamesTracker.MissingGames.UpdateAllMissing | lutris/scanners/lutris.py:226-230 | sets the check-all flag and schedules a worker with no delay when none runs |
| MissingGamesTracker.MissingGames.NotifyChanged | lutris/scanners/lutris.py:278-283 | fires once exactly when the changed flag is set, and clears it |
| MissingGamesTracker.MissingGames.TakeCachedGames | lutris/scanners/lutris.py:289-293 | the queue becomes the cache's keys and the waiting set is cleared |
| MissingGamesTracker.MissingGames.TakeWaitingGames | lutris/scanners/lutris.py:295-302 | notifies pending changes, stalls once, and moves the waiting set into the queue |
| MissingGamesTracker.MissingGames.StartFullCheck | lutris/scanners/lutris.py:289-293 | with a full check pending the flag is cleared and the queue becomes the cached games, or the cache's error is raised; without one, queue and waiting set are unchanged; the pending set is unchanged |
| MissingGamesTracker.MissingGames.PopQueue | lutris/scanners/lutris.py:304-305 | removes and returns the last queued id, which was pending and no longer is; the remaining work shrinks |
| MissingGamesTracker.MissingGames.RefillQueue | lutris/scanners/lutris.py:288-302 | a pending full check loads every cached game into the queue, or raises the cache's error; it stalls once, notifies pending changes and moves the waiting games into the queue exactly when no full check was pending, the queue was empty and games were waiting; otherwise the notifications, stalls and changed flag stay, and a non-empty queue and the waiting set are left alone; the pending set is unchanged |
| MissingGamesTracker.MissingGames.NextGameId | lutris/scanners/lutris.py:285-307 | a returned id was pending and is no longer pending; None only when nothing is pending; an error only from loading the whole cache; at most one notification, only when a change was recorded, and only together with a stall |
| MissingGamesTracker.MissingGames.CheckGame | lutris/scanners/lutris.py:261-270 | one id is reclassified against its cached path; the changed flag is set only on an actual change |
| MissingGamesTracker.MissingGames.FetchRound | lutris/scanners/lutris.py:256-270 | one loop iteration: either stop with the missing set unchanged, or check exactly one pending id, with the pending work shrinking; no more notifications than stalls, a change is recorded or notified, and nothing is notified when nothing changed |
| MissingGamesTracker.MissingGames.CheckRound | lutris/scanners/lutris.py:256-270 | one iteration keeps the loop's invariant: checked and pending games make up the requested ones, the missing set is the reclassification of the checked games, and the notification bounds hold; a stop with a readable cache means every requested game was checked |
| MissingGamesTracker.MissingGames.CheckPending | lutris/scanners/lutris.py:255-272 | the checked ids were pending; the missing set is the reclassification of exactly the checked ids; with a readable cache every pending id is checked; no more notifications than stalls, and none when nothing changed |
| MissingGamesTracker.MissingGames.Fetch | lutris/scanners/lutris.py:250-276 | the worker always ends with no worker marked running and the flags cleared; the missing set is the reclassification of the checked ids; any change is notified; at most one notification per stall plus the final one, and none at all when nothing changed |
| CategoryNames.LStrip | lutris/database/categories.py:52 | the result is a suffix of the input; every removed character is whitespace, and the result does not start with whitespace |
| CategoryNames.RStrip | lutris/database/categories.py:52 | the result is a prefix of the input; every removed character is whitespace, and the result does not end with whitespace |
| CategoryNames.Strip | lutris/database/categories.py:52 | the result is a slice of the input with only whitespace before and after it, and neither of its ends is whitespace; a trimmed string is unchanged |
| CategoryNames.CollapseRunToOneSpace | lutris/database/categories.py:54 | a run of one or more spaces between two other characters becomes exactly one space, with either side collapsed on its own |
| CategoryNames.CollapseLeadingRun | lutris/database/categories.py:54 | a leading run of spaces becomes one space |
| CategoryNames.CollapseAppend | lutris/database/categories.py:54 | a part that does not end in a space collapses independently of what follows it |
| CategoryNames.CollapseKeepsEnds | lutris/database/categories.py:54 | never longer; keeps the first and last characters |
| CategoryNames.CollapseNoDoubleSpace | lutris/database/categories.py:54 | no two spaces are adjacent after collapsing |
| CategoryNames.CollapseOnlyDropsSpaces | lutris/database/categories.py:54 | only spaces are dropped, and a string with a space keeps one |
| CategoryNames.CollapseFixpoint | lutris/database/categories.py:54 | a string without a double space is unchanged |
| CategoryNames.CollapseKeepsReserved | lutris/database/categories.py:53-61 | collapsing spaces does not change whether a name is reserved |
| CategoryNames.StripCategoryName | lutris/database/categories.py:50-55 | the result is trimmed and reserved exactly when the stripped name is; a reserved name is only stripped; a non-reserved one is the stripped name with its space runs collapsed, so it has no double space and the same non-space characters |
| CategoryNames.StripCategoryNameIdempotent | lutris/database/categories.py:50-55 | normalising twice equals normalising once |
| CategoryNames.StripCategoryNameIgnoresPadding | lutris/database/categories.py:52 | any whitespace before and after a name, of different lengths on each side, does not change the normalised name |
| CategoryNames.StripPadding | lutris/database/categories.py:52 | stripping removes any whitespace prefix and suffix |
| Categories.BucketContents | lutris/database/categories.py:76-80 | a game's bucket holds exactly its rows' category ids, and is non-empty iff the game has a row |
| Categories.BucketLength | lutris/database/categories.py:76-80 | one bucket entry per row of the game |
| Categories.BucketAppend | lutris/database/categories.py:78-79 | grouping two batches of rows in turn appends the second batch's ids after the first's, so each game's ids follow row order |
| Categories.BucketOneRow | lutris/database/categories.py:79 | one row appends exactly its category id to its own game's bucket and to no other |
| Categories.GetAllGamesCategories | lutris/database/categories.py:76-80 | the keys are the games with a row, and each maps to its category ids in row order |
| Categories.QueryIds | lutris/database/categories.py:95-124 | the query selects only games |
| Categories.QueryIdsMembers | lutris/database/categories.py:95-124 | a game is selected iff it is in an included category (or nothing is included) and in no excluded category |
| Categories.SmartIdsMembers | lutris/database/categories.py:125-136 | the merged smart games are exactly those of the smart categories that are not excluded and, when `included` is given, are named in it |
| Categories.GetGameIdsForCategories | lutris/database/categories.py:90-138 | strictly increasing (sorted, no duplicates), and holding exactly the query's games plus the selected smart categories' games |
| Categories.MergeSmartCategories | lutris/database/categories.py:122-136 | the merge loop yields the query result united with the selected smart categories' games |
| Categories.SelectedIdsAreGames | lutris/database/categories.py:122-138 | every selected id is a game id |
| Categories.EmptyIncludedDropsSmartCategories | lutris/database/categories.py:95-106 | an empty `included` list selects what None would select from the query, but drops the smart categories; with nothing given every game is selected |
| Categories.ExcludedSmartCategoryIsDropped | lutris/database/categories.py:126-130 | excluding "UNCATEGORIZED" leaves only the query's games |
| Categories.RemoveUnusedCategories | lutris/database/categories.py:169-184 | a "favorite" category and every used category are kept; only unused categories are deleted; kept names are unchanged |
| Categories.NatToString | lutris/database/categories.py:46 | the decimal form of a number is a non-empty string of digits |
| Categories.ParseNatToString | lutris/database/categories.py:46 | reading the decimal form back gives the number |
| Categories.SmartCategoryIdsDistinct | lutris/database/categories.py:43-47 | smart category ids are distinct and never start with a digit |
| Categories.GetCategories | lutris/database/categories.py:64-73 | given the categories table as the database returns it: those entries in order, then one entry per smart category with its id and name; the unused categories are then removed |
| RunnerConfig.GetArch | lutris/runners/runner.py:16-21 | x64 iff the machine contains "64", checked first; i386 iff it contains "86" and not "64"; None otherwise |
| RunnerConfig.OptionsDictLastWins | lutris/runners/runner.py:67 | an option name maps to the last option of that name, and a name no option has is not a key |
| RunnerConfig.OptionsAsDict | lutris/runners/runner.py:57-67 | ValueError exactly for a type other than runner, game and system; otherwise the option list of that type keyed by name |
| RunnerConfig.DefaultsOfGet | lutris/runners/runner.py:69-76 | a key has a default exactly when an option of that name has a 'default' entry, and it maps to that entry |
| RunnerConfig.GetOptionsDefaults | lutris/runners/runner.py:69-76 | ValueError exactly for an unknown type; otherwise exactly the options with a default, each mapped to its default |
| RunnerConfig.CollectDefaults | lutris/runners/runner.py:73-76 | the loop keeps exactly the options with a default |
| RunnerConfig.GameConfig | lutris/runners/runner.py:87-93 | game-level values override the defaults; the keys are those of either; in the model's insertion-ordered dict the defaults' keys come first in their order (Python 2 gives no order) |
| RunnerConfig.RunnerConfig | lutris/runners/runner.py:96-109 | each key takes its value from the highest of defaults < runner level < game level that has it; the game level counts only when it is a non-empty dict |
| RunnerConfig.SystemConfig | lutris/runners/runner.py:111-128 | TypeError exactly when the global 'system' section is null or the runner's 'system' section is missing or null; otherwise each key comes from the highest of defaults < system < runner < game |
| RunnerConfig.GamePath | lutris/runners/runner.py:148-153 | the game's directory when non-empty; otherwise 'game_path' from the highest configuration level that sets it, or the error system_config raises |
| RunnerConfig.BrowseIndex | lutris/runners/runner.py:139-140 | the first item of the config, in order, whose key is exe, main_file, rom, disk or iso |
| RunnerConfig.BrowseDir | lutris/runners/runner.py:136-146 | with no such key: the game's directory, or None; with one: the dirname of its value when that is absolute, otherwise that dirname joined under game_path; an error exactly when the value is not a string, or the dirname is relative and game_path is not a string (game_path's own error is passed on, every other one is TypeError) |
| PyDicts.Set | lutris/runners/runner.py:75 | `d[k] = v`: k maps to v and other keys are unchanged; in the model's insertion-ordered dict a new key is appended |
| PyDicts.UpdateGet | lutris/runners/runner.py:92 | after `d.update(o)`, o's values win and d's other entries are kept |
| PyDicts.UpdateKeys | lutris/runners/runner.py:92 | the keys after `update` are those of either dict; in the model's insertion-ordered dict d's keys stay first in their order |
| PyDicts.CascadeResolves | lutris/runners/runner.py:111-128 | applying the layers in turn gives each key the value of the last layer that has it |
| PyDicts.CascadeKeepsBottomOrder | lutris/runners/runner.py:87-93 | a fact about the model's insertion-ordered dict, which Python 2 does not promise: the bottom layer's keys come first, in their own order |

## Left out

- **Concurrency and timing in `MissingGames`.** This covers `AsyncCall`, the
  worker thread and `time.sleep`. The worker runs to completion as one
  sequential `Fetch`. A scheduled worker is recorded in `workerDelays`, and
  each stall in `stalls`. Delivery of the `updated` notification is a
  counter.
- **`MissingGames.Fetch`.** It does not model the initial `time.sleep`
  (line 253), which only delays the pass.
- **`MissingGames` exceptions.** Any exception in the worker loop is caught
  (lines 271-272). The only source of exceptions modelled is reading the
  path cache.
- **`get_path_cache` in the worker.** Its memoised value is a parameter of
  `Fetch`, the same for the whole pass.
- **`install_game`, `download_lutris_media`, `get_api_games`,
  `get_game_installers` and `get_games`.** These are collaborators. The
  scan records the install and download calls it makes, and takes the
  catalog and installers as inputs. `install_game` raising is a predicate.
- **`slugify`.** It is an arbitrary function parameter.
- **`os.path.expanduser`.** It covers `~` and `~user`. Environment and
  password-database lookups are the `UserDirs` value.
- **Logging, `time.time`, JSON formatting and the SQL strings.** Each query
  is modelled by the set of rows it returns. `remove_unused_categories`
  deletes the unused categories in the order `ListOf` returns them, which
  stands for the database's order.
- **`categories.py` pass-throughs.** `get_category`, `get_categories_in_game`,
  `add_category`, `add_game_to_category` and `remove_category_from_game` only
  pass SQL through.
- **`Runner` beyond the listed properties.** This covers `__init__`,
  `description`, `working_dir`, and the installation, download and dialog
  methods. They are GUI, network or archive work, or plain attribute access.
- **`default_path`.** It is `system_config.get('game_path')`, which is the
  fallback branch of `RunnerConfig.GamePath`, so it has no member of its own.
- **Python version of `runner.py`.** `runner.py` is modelled with Python 2
  semantics, where `dict.iteritems` exists (line 73). The other two files use
  Python 3 syntax (an f-string in `categories.py`, typing annotations in
  `scanners/lutris.py`). Under Python 3, `iteritems` raises `AttributeError`.
  So `get_options_defaults`, and with it `game_config`, `runner_config`,
  `system_config`, `browse_dir` and a `game_path` that falls back to the
  system configuration, would always raise. The model does not capture that.
- **Dict iteration order in `runner.py`.** Python 2 dicts iterate in hash
  order. `PyDicts.Dict` iterates in insertion order instead. This affects
  only which browsed key `BrowseDir` meets first when several are set. The
  model proves nothing about that choice beyond "the first key in the
  dict's order".
- **`RunnerConfig.BrowseDir` and `RunnerConfig.GamePath` errors.** Both
  report Python 2's `AttributeError` (from `os.path.dirname` or
  `os.path.join` on a non-string) as `TypeError`.
- **`lutris/gui/widgets/utils.py` and `lutris/util/steamgriddb_client.py`.**
  GTK, image and network code are not part of this model.
