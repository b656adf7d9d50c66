// config.py: the worker's configuration, one section `flamenco-worker` of a
// ConfigParser, filled from built-in defaults and configuration files, checked
// for a plausible manager_url, and shown with the worker secret masked.
// Configuration files are inputs, already parsed into key/value maps.
module Config {
  import opened Wrappers
  import opened Text

  /** TESTING_TASK_TYPES: what --test mode puts into task_types. */
  const TestingTaskTypes: string := "test-blender-render"
  /** What load_config shows instead of a non-empty worker_secret. */
  const HiddenSecret: string := "-hidden-"

  /** DEFAULT_CONFIG['flamenco-worker']. */
  const DefaultConfig: map<string, string> := map[
    "manager_url" := "",
    "task_types" := "sleep blender-render file-management exr-merge",
    "task_update_queue_db" := "flamenco-worker.db",
    "subprocess_pid_file" := "flamenco-worker-subprocess.pid",
    "may_i_run_interval_seconds" := "5",
    "worker_id" := "",
    "worker_secret" := "",
    "worker_registration_secret" := "",
    "push_log_max_interval_seconds" := "5.0",
    "push_log_max_entries" := "10",
    "push_act_max_interval_seconds" := "1.0"
  ]

  /** The configuration error check_config stops the process with. */
  function ConfigError(message: string): Exception
  {
    Exception("SystemExit", "Configuration error: " + message)
  }

  /** `raise SystemExit(47)`: a configuration file that does not exist. */
  const MissingFile: Exception := Exception("SystemExit", "47")

  predicate IsQuote(c: char) { c == '\'' || c == '"' }

  /**
   * check_config: an empty manager_url is fine; otherwise it must not start
   * with a quote, must contain `://` and must start with `http`, checked in
   * that order.
   */
  function CheckConfig(managerUrl: string): (r: Result<()>)
    ensures r.Ok? <==> (managerUrl == [] ||
      (!IsQuote(managerUrl[0]) && Contains(managerUrl, "://") && StartsWith(managerUrl, "http")))
    ensures managerUrl != [] && IsQuote(managerUrl[0]) ==>
      r == Raise(ConfigError("manager_url should not be quoted: " + managerUrl))
    ensures managerUrl != [] && !IsQuote(managerUrl[0]) && !Contains(managerUrl, "://") ==>
      r == Raise(ConfigError("manager_url should be a URL (so https://something/ or http://something/): " + managerUrl))
    ensures managerUrl != [] && !IsQuote(managerUrl[0]) && Contains(managerUrl, "://") && !StartsWith(managerUrl, "http") ==>
      r == Raise(ConfigError("manager_url should start with https:// or http://(so https://something/ or http://something/): " + managerUrl))
  {
    if managerUrl == [] then Ok(())
    else if IsQuote(managerUrl[0]) then
      Raise(ConfigError("manager_url should not be quoted: " + managerUrl))
    else if !Contains(managerUrl, "://") then
      Raise(ConfigError("manager_url should be a URL (so https://something/ or http://something/): " + managerUrl))
    else if !StartsWith(managerUrl, "http") then
      Raise(ConfigError("manager_url should start with https:// or http://(so https://something/ or http://something/): " + managerUrl))
    else Ok(())
  }

  /** The section after setting each (key, value) in turn; keys go through optionxform, which lower-cases them. */
  function Overlay(section: map<string, string>, items: seq<(string, string)>): map<string, string>
    decreases |items|
  {
    if items == [] then section
    else Overlay(section[Lower(items[0].0) := items[0].1], items[1..])
  }

  /** The option names a sequence of settings ends up under. */
  function OptionNames(items: seq<(string, string)>): (names: set<string>)
    ensures forall i :: 0 <= i < |items| ==> Lower(items[i].0) in names
  {
    if items == [] then {} else {Lower(items[0].0)} + OptionNames(items[1..])
  }

  /** Every option not set keeps its value, and nothing is removed. */
  lemma {:induction false} OverlayKeeps(section: map<string, string>, items: seq<(string, string)>, k: string)
    requires k !in OptionNames(items)
    ensures k in Overlay(section, items) <==> k in section
    ensures k in section ==> Overlay(section, items)[k] == section[k]
    decreases |items|
  {
    if items != [] {
      OverlayKeeps(section[Lower(items[0].0) := items[0].1], items[1..], k);
    }
  }

  /** A given key holds the value given for it last. */
  lemma {:induction false} OverlaySets(section: map<string, string>, items: seq<(string, string)>, i: nat)
    requires i < |items|
    requires forall j :: i < j < |items| ==> Lower(items[j].0) != Lower(items[i].0)
    ensures Lower(items[i].0) in Overlay(section, items)
    ensures Overlay(section, items)[Lower(items[i].0)] == items[i].1
    decreases |items|
  {
    if i == 0 {
      var k := Lower(items[0].0);
      NotAnOptionName(items[1..], k);
      OverlayKeeps(section[k := items[0].1], items[1..], k);
    } else {
      OverlaySets(section[Lower(items[0].0) := items[0].1], items[1..], i - 1);
    }
  }

  /** A name no key lower-cases to is not among the option names. */
  lemma {:induction false} NotAnOptionName(items: seq<(string, string)>, k: string)
    requires forall j :: 0 <= j < |items| ==> Lower(items[j].0) != k
    ensures k !in OptionNames(items)
    decreases |items|
  {
    if items != [] {
      NotAnOptionName(items[1..], k);
    }
  }

  /** What load_config shows of the section: worker_secret replaced by `-hidden-` when it is set. */
  function Masked(section: map<string, string>): map<string, string>
  {
    if "worker_secret" in section && section["worker_secret"] != [] then section["worker_secret" := HiddenSecret]
    else section
  }

  /** The shown copy differs from the section only in a set worker_secret, which it hides. */
  lemma MaskedHidesOnlySecret(section: map<string, string>, k: string)
    ensures Masked(section).Keys == section.Keys
    ensures k in section && k != "worker_secret" ==> Masked(section)[k] == section[k]
    ensures "worker_secret" in section ==>
      Masked(section)["worker_secret"] == if section["worker_secret"] != [] then HiddenSecret else []
  {
  }

  /** "task_types" is its own option name. */
  lemma LowerTaskTypes()
    ensures Lower("task_types") == "task_types"
  {
    var s := "task_types";
    assert forall i :: 0 <= i < |s| ==> !('A' <= s[i] <= 'Z');
  }

  /** A configuration file as load_config finds it. */
  datatype ConfigFile = Missing | Present(contents: map<string, string>)

  /** The section after reading a file: what the file sets overrides what came before; a missing file is skipped. */
  function ReadInto(section: map<string, string>, file: ConfigFile): (r: map<string, string>)
    ensures r.Keys == section.Keys + (if file.Present? then file.contents.Keys else {})
    ensures forall k :: k in r ==> r[k] == if file.Present? && k in file.contents then file.contents[k] else section[k]
  {
    if file.Present? then section + file.contents else section
  }

  /** The flamenco-worker section of a ConfigParser. */
  class ConfigParser {
    var section: map<string, string>

    /** ConfigParser() with read_dict(DEFAULT_CONFIG). */
    constructor WithDefaults()
      ensures section == DefaultConfig
    {
      section := DefaultConfig;
    }

    /** ConfigParser() with read_dict({'flamenco-worker': {}}). */
    constructor Empty()
      ensures section == map[]
    {
      section := map[];
    }

    /** set(CONFIG_SECTION, key, value). */
    method Set(key: string, value: string)
      modifies this
      ensures section == old(section)[Lower(key) := value]
    {
      section := section[Lower(key) := value];
    }

    /** setvalue(key, value). */
    method SetValue(key: string, value: string)
      modifies this
      ensures section == old(section)[Lower(key) := value]
    {
      Set(key, value);
    }

    /** erase(key): the key stays, with the empty string as its value. */
    method Erase(key: string)
      modifies this
      ensures section == old(section)[Lower(key) := ""]
    {
      Set(key, "");
    }

    /** read() of one file: what it sets overrides what came before; a missing file is skipped. */
    method Read(file: ConfigFile)
      modifies this
      ensures section == ReadInto(old(section), file)
    {
      if file.Present? {
        section := section + file.contents;
      }
    }
  }

  /**
   * merge_with_home_config(new_conf): the home configuration file, with every
   * key of new_conf set to its value. Returns what is written back.
   */
  method MergeWithHomeConfig(newConf: seq<(string, string)>, home: ConfigFile) returns (written: map<string, string>)
    ensures written == Overlay(if home.Present? then home.contents else map[], newConf)
  {
    var confparser := new ConfigParser.Empty();
    confparser.Read(home);
    assert confparser.section == if home.Present? then home.contents else map[] by {
      if home.Present? {
        assert map[] + home.contents == home.contents;
      }
    }
    var i := 0;
    while i < |newConf|
      invariant 0 <= i <= |newConf|
      invariant Overlay(confparser.section, newConf[i..]) == Overlay(if home.Present? then home.contents else map[], newConf)
    {
      assert newConf[i..][0] == newConf[i] && newConf[i..][1..] == newConf[i + 1..];
      confparser.Set(newConf[i].0, newConf[i].1);
      i := i + 1;
    }
    assert newConf[i..] == [];
    written := confparser.section;
  }

  /** The section load_config ends with, before the check: defaults, then the files read, then test mode. */
  function Loaded(configFile: Option<ConfigFile>, global: ConfigFile, home: ConfigFile, testMode: bool): (s: map<string, string>)
    ensures "manager_url" in s && "task_types" in s && "worker_secret" in s
    ensures testMode ==> s["task_types"] == TestingTaskTypes
  {
    var s := if configFile.Some? then ReadInto(DefaultConfig, configFile.value)
      else ReadInto(ReadInto(DefaultConfig, global), home);
    if testMode then s["task_types" := TestingTaskTypes] else s
  }

  /** True when load_config finds the file it must read: the given one, or else the global one. */
  predicate FilesFound(configFile: Option<ConfigFile>, global: ConfigFile)
  {
    if configFile.Some? then configFile.value.Present? else global.Present?
  }

  /**
   * The reading part of load_config: defaults, then the given file, or else
   * the global and the home file; SystemExit(47) when the file that must be
   * there is missing.
   */
  method ReadConfigFiles(configFile: Option<ConfigFile>, global: ConfigFile, home: ConfigFile)
    returns (r: Result<ConfigParser>)
    ensures r.Ok? <==> FilesFound(configFile, global)
    ensures r.Raise? ==> r.exc == MissingFile
    ensures r.Ok? ==> fresh(r.value) && r.value.section == Loaded(configFile, global, home, false)
  {
    var confparser := new ConfigParser.WithDefaults();
    if configFile.Some? {
      if configFile.value.Missing? {
        return Raise(MissingFile);
      }
      confparser.Read(configFile.value);
    } else {
      if global.Missing? {
        return Raise(MissingFile);
      }
      confparser.Read(global);
      confparser.Read(home);
    }
    r := Ok(confparser);
  }

  /**
   * load_config: SystemExit(47) when the given file, or without one the
   * global file, does not exist; otherwise the loaded section, with test
   * mode's task_types, checked by check_config; with show_effective_config
   * also the copy shown, in which a set worker_secret is masked while the
   * returned parser keeps it.
   */
  method LoadConfig(configFile: Option<ConfigFile>, global: ConfigFile, home: ConfigFile,
                    showEffectiveConfig: bool, enableTestMode: bool)
    returns (r: Result<ConfigParser>, shown: Option<map<string, string>>)
    ensures !FilesFound(configFile, global) ==> r == Raise(MissingFile) && shown.None?
    ensures r.Ok? ==> (fresh(r.value) &&
      r.value.section == Loaded(configFile, global, home, enableTestMode))
    ensures r.Ok? <==> (FilesFound(configFile, global) &&
      CheckConfig(Loaded(configFile, global, home, enableTestMode)["manager_url"]).Ok?)
    ensures FilesFound(configFile, global) && CheckConfig(Loaded(configFile, global, home, enableTestMode)["manager_url"]).Raise? ==>
      r == Raise(CheckConfig(Loaded(configFile, global, home, enableTestMode)["manager_url"]).exc)
    ensures shown.Some? <==> r.Ok? && showEffectiveConfig
    ensures shown.Some? ==> shown.value == Masked(Loaded(configFile, global, home, enableTestMode))
  {
    shown := None;
    r := ReadConfigFiles(configFile, global, home);
    if r.Raise? {
      return;
    }
    var confparser := r.value;
    if enableTestMode {
      LowerTaskTypes();
      confparser.SetValue("task_types", TestingTaskTypes);
    }
    var section := confparser.section;
    assert section == Loaded(configFile, global, home, enableTestMode);
    var check := CheckConfig(section["manager_url"]);
    if check.Raise? {
      return Raise(check.exc), None;
    }
    if showEffectiveConfig {
      var toShow := section;
      if toShow["worker_secret"] != [] {
        toShow := toShow["worker_secret" := HiddenSecret];
      }
      shown := Some(toShow);
    }
  }
}
