/** The generic runner of lutris/runners/runner.py: the host architecture,
    the option lists of a runner and the configuration cascade built from
    them, and the directories the runner derives from that configuration.

    Configuration files are read by LutrisConfig, which is not part of this
    model: what the runner reads from it is given as an `Environment`. A
    section of a configuration file is a dict, or None when the file holds
    a null there. */
module RunnerConfig {
  import opened PyValues
  import opened Paths
  import opened PyDicts

  // ---------------------------------------------------------------------
  // get_arch
  // ---------------------------------------------------------------------

  /** get_arch, on the string platform.machine() returns: "64" anywhere in
      it means x64 even when "86" occurs too; otherwise "86" means i386. */
  function GetArch(machine: string): (r: Option<string>)
    ensures r == Some("x64") <==> Contains(machine, "64")
    ensures r == Some("i386") <==> !Contains(machine, "64") && Contains(machine, "86")
    ensures r.None? <==> !Contains(machine, "64") && !Contains(machine, "86")
  {
    if Contains(machine, "64") then Some("x64")
    else if Contains(machine, "86") then Some("i386")
    else None
  }

  // ---------------------------------------------------------------------
  // Option lists
  // ---------------------------------------------------------------------

  /** One entry of an option list: its 'option' name and its 'default'
      entry, when it has one. */
  datatype OptionSpec = OptionSpec(option: string, default: Option<Value>)

  /** dict((opt['option'], opt) for opt in options) */
  function OptionsDict(options: seq<OptionSpec>): Dict<OptionSpec>
    decreases |options|
  {
    if options == [] then []
    else
      var n := |options| - 1;
      Set(OptionsDict(options[..n]), options[n].option, options[n])
  }

  /** Position of the last option named k, or -1 when there is none. */
  function LastNamed(options: seq<OptionSpec>, k: string): (i: int)
    ensures -1 <= i < |options|
    ensures i >= 0 ==> options[i].option == k
    ensures forall j | i < j < |options| :: options[j].option != k
  {
    if options == [] then -1
    else if options[|options| - 1].option == k then |options| - 1
    else LastNamed(options[..|options| - 1], k)
  }

  /** Every option name is a key, nothing else is, and a name given twice
      keeps its last option. */
  lemma {:induction false} OptionsDictLastWins(options: seq<OptionSpec>, k: string)
    ensures Get(OptionsDict(options), k) ==
            (var i := LastNamed(options, k); if i < 0 then None else Some(options[i]))
    decreases |options|
  {
    if options != [] {
      var n := |options| - 1;
      OptionsDictLastWins(options[..n], k);
    }
  }

  /** The option types options_as_dict knows. */
  const OptionTypes: seq<string> := ["runner", "game", "system"]

  /** The runner as far as the modelled properties read it. */
  datatype Runner = Runner(
    name: string,                  // the runner's class name
    runnerOptions: seq<OptionSpec>,
    gameOptions: seq<OptionSpec>,
    config: Sections,              // the game's configuration, by section
    gameDirectory: Option<string>) // 'directory' of the game's database row

  type Sections = map<string, Option<Dict<Value>>>

  /** What the runner reads outside itself. */
  datatype Environment = Environment(
    systemOptions: seq<OptionSpec>, // the option list of type system
    runnerLevel: Sections,          // runner_config of the runner's LutrisConfig, by runner name
    runnerSections: Sections,       // config of the runner's LutrisConfig, by section
    systemLevel: Sections)          // system_config of a LutrisConfig with no runner

  /** options_as_dict: ValueError for an unknown option type, otherwise the
      option list of that type keyed by option name. */
  function OptionsAsDict(runner: Runner, env: Environment, optionsType: string): (r: Result<Dict<OptionSpec>>)
    ensures r.Err? <==> optionsType !in OptionTypes
    ensures r.Err? ==> r.error == ValueError
    ensures optionsType == "runner" ==> r == Ok(OptionsDict(runner.runnerOptions))
    ensures optionsType == "game" ==> r == Ok(OptionsDict(runner.gameOptions))
    ensures optionsType == "system" ==> r == Ok(OptionsDict(env.systemOptions))
  {
    if optionsType == "runner" then Ok(OptionsDict(runner.runnerOptions))
    else if optionsType == "game" then Ok(OptionsDict(runner.gameOptions))
    else if optionsType == "system" then Ok(OptionsDict(env.systemOptions))
    else Err(ValueError)
  }

  /** The default of the option named k, if there is such an option and it
      has a default. */
  function DefaultOf(options: Dict<OptionSpec>, k: string): Option<Value> {
    match Get(options, k)
    case Some(o) => o.default
    case None => None
  }

  /** The options that have a default, mapped to it, in the options' order. */
  function DefaultsOf(options: Dict<OptionSpec>): (r: Dict<Value>)
    ensures forall k :: In(r, k) ==> In(options, k)
    decreases |options|
  {
    if options == [] then []
    else
      var n := |options| - 1;
      var rest := DefaultsOf(options[..n]);
      assert forall j | 0 <= j < n :: options[..n][j] == options[j];
      if options[n].1.default.Some? then
        assert !In(rest, options[n].0);
        var r := rest + [(options[n].0, options[n].1.default.value)];
        assert forall k | In(r, k) :: k == options[n].0 || In(rest, k) by {
          forall k | In(r, k) ensures k == options[n].0 || In(rest, k) {
            var j :| 0 <= j < |r| && r[j].0 == k;
            if j < |rest| {
              assert r[j] == rest[j];
            }
          }
        }
        r
      else rest
  }

  lemma {:induction false} DefaultsOfGet(options: Dict<OptionSpec>, k: string)
    ensures Get(DefaultsOf(options), k) == DefaultOf(options, k)
    decreases |options|
  {
    if options != [] {
      var n := |options| - 1;
      var prefix := options[..n];
      var rest := DefaultsOf(prefix);
      var last := options[n];
      if last.1.default.Some? {
        var r := rest + [(last.0, last.1.default.value)];
        assert DefaultsOf(options) == r;
        assert r[..|r| - 1] == rest;
        if last.0 == k {
          assert Get(r, k) == Some(last.1.default.value);
          assert Get(options, k) == Some(last.1);
        } else {
          DefaultsOfGet(prefix, k);
          GetDropLast(options, k);
          GetDropLast(r, k);
        }
      } else {
        assert DefaultsOf(options) == rest;
        if last.0 == k {
          assert Get(options, k) == Some(last.1);
          assert !In(prefix, k) by {
            assert forall j | 0 <= j < n :: prefix[j] == options[j];
          }
        } else {
          DefaultsOfGet(prefix, k);
          GetDropLast(options, k);
        }
      }
    }
  }

  /** get_options_defaults: exactly the options of that type that have a
      default, each mapped to its default. */
  method GetOptionsDefaults(runner: Runner, env: Environment, optionsType: string) returns (r: Result<Dict<Value>>)
    ensures r.Err? <==> optionsType !in OptionTypes
    ensures r.Err? ==> r.error == ValueError
    ensures r.Ok? ==> r.value == DefaultsOf(OptionsAsDict(runner, env, optionsType).value)
    ensures r.Ok? ==> forall k :: Get(r.value, k) == DefaultOf(OptionsAsDict(runner, env, optionsType).value, k)
  {
    var optionsDict := OptionsAsDict(runner, env, optionsType);
    if optionsDict.Err? {
      return Err(optionsDict.error);
    }
    var defaults := CollectDefaults(optionsDict.value);
    r := Ok(defaults);
  }

  /** The loop of get_options_defaults over the items of an options dict. */
  method CollectDefaults(options: Dict<OptionSpec>) returns (defaults: Dict<Value>)
    ensures defaults == DefaultsOf(options)
    ensures forall k :: Get(defaults, k) == DefaultOf(options, k)
  {
    defaults := [];
    for i := 0 to |options|
      invariant defaults == DefaultsOf(options[..i])
    {
      assert options[..i + 1][..i] == options[..i];
      var (option, params) := options[i];
      if params.default.Some? {
        assert !In(options[..i], option);
        SetNew(defaults, option, params.default.value);
        defaults := Set(defaults, option, params.default.value);
      }
    }
    assert options[..|options|] == options;
    forall k ensures Get(defaults, k) == DefaultOf(options, k) {
      DefaultsOfGet(options, k);
    }
  }

  // ---------------------------------------------------------------------
  // The configuration cascade
  // ---------------------------------------------------------------------

  /** `sections.get(key) or {}` */
  function SectionOrEmpty(sections: Sections, key: string): Dict<Value> {
    if key in sections && sections[key].Some? then sections[key].value else []
  }

  /** game_config's layers, lowest precedence first: the game options'
      defaults, then the game section of the game's configuration. */
  function GameLayers(runner: Runner): seq<Dict<Value>> {
    [DefaultsOf(OptionsDict(runner.gameOptions)), SectionOrEmpty(runner.config, "game")]
  }

  /** runner_config's layers: the runner options' defaults, the runner's
      own configuration, then the game's section named after the runner
      when it is a non-empty dict. */
  function RunnerLayers(runner: Runner, env: Environment): seq<Dict<Value>> {
    var defaults := DefaultsOf(OptionsDict(runner.runnerOptions));
    var runnerLevel := SectionOrEmpty(env.runnerLevel, runner.name);
    if runner.name in runner.config && runner.config[runner.name].Some? && runner.config[runner.name].value != []
    then [defaults, runnerLevel, runner.config[runner.name].value]
    else [defaults, runnerLevel]
  }

  /** system_config's layers: the system options' defaults, the 'system'
      section of the global configuration (missing reads as empty), the
      'system' section of the runner's configuration, then the game's
      'system' section. A null global section or a runner configuration
      without a 'system' dict makes `update` raise TypeError. */
  function SystemLayers(runner: Runner, env: Environment): Result<seq<Dict<Value>>> {
    var systemLevel := if "system" in env.systemLevel then env.systemLevel["system"] else Some([]);
    var runnerLevel := if "system" in env.runnerSections then env.runnerSections["system"] else None;
    if systemLevel.None? || runnerLevel.None? then Err(TypeError)
    else Ok([DefaultsOf(OptionsDict(env.systemOptions)), systemLevel.value, runnerLevel.value,
             SectionOrEmpty(runner.config, "system")])
  }

  /** The value of system_config. */
  function SystemConfigOf(runner: Runner, env: Environment): Result<Dict<Value>> {
    match SystemLayers(runner, env)
    case Ok(layers) => Ok(Cascade(layers))
    case Err(e) => Err(e)
  }

  /** game_config: the game level overrides the defaults; the keys are
      those of either, the defaults' keys first. */
  method GameConfig(runner: Runner, env: Environment) returns (config: Dict<Value>)
    ensures config == Cascade(GameLayers(runner))
    ensures forall k :: Get(config, k) == Resolve(GameLayers(runner), k)
    ensures Keys(DefaultsOf(OptionsDict(runner.gameOptions))) <= Keys(config)
  {
    var gameLevel := SectionOrEmpty(runner.config, "game");
    var d := GetOptionsDefaults(runner, env, "game");
    var defaults := d.value;
    defaults := Update(defaults, gameLevel);
    config := defaults;
    CascadeTwo(d.value, gameLevel);
    forall k ensures Get(config, k) == Resolve(GameLayers(runner), k) {
      CascadeResolves(GameLayers(runner), k);
    }
    CascadeKeepsBottomOrder(GameLayers(runner));
  }

  /** runner_config: defaults < runner level < game level. */
  method RunnerConfig(runner: Runner, env: Environment) returns (config: Dict<Value>)
    ensures config == Cascade(RunnerLayers(runner, env))
    ensures forall k :: Get(config, k) == Resolve(RunnerLayers(runner, env), k)
  {
    var d := GetOptionsDefaults(runner, env, "runner");
    var defaults := d.value;

    var runnerLevel := SectionOrEmpty(env.runnerLevel, runner.name);
    defaults := Update(defaults, runnerLevel);

    var gameLevel := if runner.name in runner.config then runner.config[runner.name] else None;
    if gameLevel.Some? && gameLevel.value != [] {
      defaults := Update(defaults, gameLevel.value);
      CascadeThree(d.value, runnerLevel, gameLevel.value);
    } else {
      CascadeTwo(d.value, runnerLevel);
    }
    config := defaults;
    forall k ensures Get(config, k) == Resolve(RunnerLayers(runner, env), k) {
      CascadeResolves(RunnerLayers(runner, env), k);
    }
  }

  /** system_config: defaults < system < runner < game, or TypeError when
      a level that is updated with is None. */
  method SystemConfig(runner: Runner, env: Environment) returns (config: Result<Dict<Value>>)
    ensures config == SystemConfigOf(runner, env)
    ensures config.Err? <==>
              ("system" in env.systemLevel && env.systemLevel["system"].None?) ||
              !("system" in env.runnerSections && env.runnerSections["system"].Some?)
    ensures config.Err? ==> config.error == TypeError
    ensures config.Ok? ==> forall k :: Get(config.value, k) == Resolve(SystemLayers(runner, env).value, k)
  {
    var d := GetOptionsDefaults(runner, env, "system");
    var defaults := d.value;

    var systemLevel := if "system" in env.systemLevel then env.systemLevel["system"] else Some([]);
    if systemLevel.None? {
      return Err(TypeError);
    }
    defaults := Update(defaults, systemLevel.value);

    var runnerLevel := if "system" in env.runnerSections then env.runnerSections["system"] else None;
    if runnerLevel.None? {
      return Err(TypeError);
    }
    defaults := Update(defaults, runnerLevel.value);

    var gameLevel := SectionOrEmpty(runner.config, "system");
    defaults := Update(defaults, gameLevel);

    CascadeFour(d.value, systemLevel.value, runnerLevel.value, gameLevel);
    forall k ensures Get(defaults, k) == Resolve(SystemLayers(runner, env).value, k) {
      CascadeResolves(SystemLayers(runner, env).value, k);
    }
    config := Ok(defaults);
  }

  // ---------------------------------------------------------------------
  // game_path and browse_dir
  // ---------------------------------------------------------------------

  /** game_path: the game's directory when it is set and non-empty,
      otherwise 'game_path' of the system configuration, which takes it
      from the highest level that sets it. */
  function GamePath(runner: Runner, env: Environment): (r: Result<Option<Value>>)
    ensures TruthyString(runner.gameDirectory) ==> r == Ok(Some(Str(runner.gameDirectory.value)))
    ensures !TruthyString(runner.gameDirectory) ==> (r.Err? <==> SystemLayers(runner, env).Err?)
    ensures !TruthyString(runner.gameDirectory) && r.Ok? ==>
              r.value == Resolve(SystemLayers(runner, env).value, "game_path")
  {
    if TruthyString(runner.gameDirectory) then Ok(Some(Str(runner.gameDirectory.value)))
    else
      match SystemConfigOf(runner, env)
      case Ok(config) =>
        CascadeResolves(SystemLayers(runner, env).value, "game_path");
        Ok(Get(config, "game_path"))
      case Err(e) => Err(e)
  }

  /** The keys browse_dir looks for. */
  const BrowseKeys: seq<string> := ["exe", "main_file", "rom", "disk", "iso"]

  /** Position of the first item whose key is one of BrowseKeys, or -1. */
  function BrowseIndex(config: seq<(string, Value)>): (i: int)
    ensures -1 <= i < |config|
    ensures i >= 0 ==> config[i].0 in BrowseKeys
    ensures forall j | 0 <= j < |config| && (i < 0 || j < i) :: config[j].0 !in BrowseKeys
  {
    if config == [] then -1
    else if config[0].0 in BrowseKeys then 0
    else
      var i := BrowseIndex(config[1..]);
      assert forall j | 1 <= j < |config| :: config[1..][j - 1] == config[j];
      if i < 0 then -1 else i + 1
  }

  /** browse_dir: the directory of the first entry of game_config, in its
      order, that names a file to launch (joined to game_path when it is
      relative); failing that the game's directory; failing that None. */
  function BrowseDir(runner: Runner, env: Environment): (r: Result<Option<string>>)
    ensures var config := Cascade(GameLayers(runner));
            BrowseIndex(config) < 0 ==>
              r == Ok(if TruthyString(runner.gameDirectory) then Some(runner.gameDirectory.value) else None)
    ensures var config := Cascade(GameLayers(runner));
            var i := BrowseIndex(config);
            i >= 0 && r.Ok? ==>
              config[i].1.Str? && r.value.Some? && EndsWith(r.value.value, DirName(config[i].1.s)) &&
              (IsAbs(DirName(config[i].1.s)) ==> r.value.value == DirName(config[i].1.s))
    ensures var config := Cascade(GameLayers(runner));
            var i := BrowseIndex(config);
            i >= 0 && r.Ok? && !IsAbs(DirName(config[i].1.s)) ==>
              var gamePath := GamePath(runner, env);
              gamePath.Ok? && gamePath.value.Some? && gamePath.value.value.Str? &&
              StartsWith(r.value.value, gamePath.value.value.s)
    ensures var config := Cascade(GameLayers(runner));
            var i := BrowseIndex(config);
            i >= 0 && config[i].1.Str? && IsAbs(DirName(config[i].1.s)) ==>
              r == Ok(Some(DirName(config[i].1.s)))
    ensures var config := Cascade(GameLayers(runner));
            var i := BrowseIndex(config);
            var gamePath := GamePath(runner, env);
            i >= 0 && config[i].1.Str? && !IsAbs(DirName(config[i].1.s)) &&
            gamePath.Ok? && gamePath.value.Some? && gamePath.value.value.Str? ==>
              r == Ok(Some(Join(gamePath.value.value.s, DirName(config[i].1.s))))
    ensures var config := Cascade(GameLayers(runner));
            var i := BrowseIndex(config);
            var gamePath := GamePath(runner, env);
            r.Err? <==>
              i >= 0 &&
              (!config[i].1.Str? ||
               (!IsAbs(DirName(config[i].1.s)) &&
                !(gamePath.Ok? && gamePath.value.Some? && gamePath.value.value.Str?)))
    ensures var config := Cascade(GameLayers(runner));
            var i := BrowseIndex(config);
            var gamePath := GamePath(runner, env);
            r.Err? && i >= 0 && config[i].1.Str? && gamePath.Err? ==> r.error == gamePath.error
    ensures var config := Cascade(GameLayers(runner));
            var i := BrowseIndex(config);
            var gamePath := GamePath(runner, env);
            r.Err? && !(i >= 0 && config[i].1.Str? && gamePath.Err?) ==> r.error == TypeError
  {
    var config := Cascade(GameLayers(runner));
    var i := BrowseIndex(config);
    if i < 0 then
      Ok(if TruthyString(runner.gameDirectory) then Some(runner.gameDirectory.value) else None)
    else
      // config[i].1 is game_config.get(key) for the key config[i].0
      match config[i].1
      case Str(file) =>
        var path := DirName(file);
        if IsAbs(path) then Ok(Some(path))
        else (
          match GamePath(runner, env)
          case Ok(Some(Str(gamePath))) => Ok(Some(Join(gamePath, path)))
          case Ok(_) => Err(TypeError)  // os.path.join of None or of a non-string
          case Err(e) => Err(e))
      case _ => Err(TypeError)  // os.path.dirname of a non-string
  }
}
