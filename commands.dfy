// The command layer of commands.py: the registry filled by @command_executor,
// the settings reader _setting, every command's validate rule, the subprocess
// PID-file check and the run protocol every command follows.
module Commands {
  import opened Wrappers
  import opened Text
  import opened Values
  import opened Files
  import opened Documents
  import Shlex

  // ---------------------------------------------------------------- registry

  datatype CommandKind =
    | Echo | LogALot | Sleep | MoveOutOfWay | MoveToFinal | CopyFile | RemoveTree
    | Exec | BlenderRender | BlenderRenderProgressive | MergeProgressiveRenders

  /** A registered command class, with the command_name the decorator gave it. */
  datatype Handler = Handler(kind: CommandKind, commandName: string)

  /** The module-level command_handlers dictionary. */
  class Registry {
    var handlers: map<string, Handler>

    constructor ()
      ensures handlers == map[]
    {
      handlers := map[];
    }

    /** Every handler is stored under its own command_name. */
    predicate NamesAgree()
      reads this
    {
      forall n :: n in handlers ==> handlers[n].commandName == n
    }

    /** @command_executor(name): an AssertionError for a name already taken. */
    method Register(name: string, kind: CommandKind) returns (r: Result<()>)
      modifies this
      ensures name in old(handlers) ==> r.Raise? && r.exc.kind == "AssertionError" && handlers == old(handlers)
      ensures name !in old(handlers) ==> r.Ok? && handlers == old(handlers)[name := Handler(kind, name)]
      ensures old(NamesAgree()) ==> NamesAgree()
    {
      if name in handlers {
        return Raise(Exception("AssertionError", ""));
      }
      handlers := handlers[name := Handler(kind, name)];
      r := Ok(());
    }
  }

  /** The names commands.py registers, in declaration order. */
  const CommandNames: seq<(string, CommandKind)> := [
    ("echo", Echo), ("log_a_lot", LogALot), ("sleep", Sleep),
    ("move_out_of_way", MoveOutOfWay), ("move_to_final", MoveToFinal),
    ("copy_file", CopyFile), ("remove_tree", RemoveTree), ("exec", Exec),
    ("blender_render", BlenderRender), ("blender_render_progressive", BlenderRenderProgressive),
    ("merge_progressive_renders", MergeProgressiveRenders)]

  /** The registry a list of distinct names produces. */
  function RegistryOf(names: seq<(string, CommandKind)>): map<string, Handler>
  {
    if names == [] then map[] else RegistryOf(names[..|names| - 1])[names[|names| - 1].0 := Handler(names[|names| - 1].1, names[|names| - 1].0)]
  }

  predicate DistinctNames(names: seq<(string, CommandKind)>)
  {
    forall i, j :: 0 <= i < j < |names| ==> names[i].0 != names[j].0
  }

  /** Importing the module: every decorator runs once, in order. */
  method RegisterAll(reg: Registry, names: seq<(string, CommandKind)>) returns (r: Result<()>)
    requires reg.handlers == map[]
    modifies reg
    ensures DistinctNames(names) ==> r.Ok? && reg.handlers == RegistryOf(names) && reg.NamesAgree()
    ensures !DistinctNames(names) ==> r.Raise? && r.exc.kind == "AssertionError"
  {
    var i := 0;
    while i < |names|
      invariant 0 <= i <= |names|
      invariant DistinctNames(names[..i])
      invariant reg.handlers == RegistryOf(names[..i]) && reg.NamesAgree()
      invariant forall n :: n in reg.handlers <==> exists k :: 0 <= k < i && names[k].0 == n
    {
      var step := reg.Register(names[i].0, names[i].1);
      if step.Raise? {
        assert !DistinctNames(names) by {
          var k :| 0 <= k < i && names[k].0 == names[i].0;
        }
        return step;
      }
      assert names[..i + 1][..i] == names[..i];
      i := i + 1;
    }
    assert names[..i] == names;
    r := Ok(());
  }

  lemma CommandNamesDistinct()
    ensures DistinctNames(CommandNames)
  {
  }

  // ---------------------------------------------------------------- _setting

  datatype SettingType = StrSetting | IntSetting

  function TypeFor(t: SettingType): PyType
  {
    if t == StrSetting then StrType else IntType
  }

  function MissingMessage(key: string): string { "Missing \"" + key + "\"" }

  function TypeMessage(key: string, valtype: SettingType, value: Value): string
  {
    "\"" + key + "\" must be a " + ClassRepr(TypeFor(valtype)) + ", not a " + ClassRepr(TypeOf(value))
  }

  /** The pair (value, error) that _setting returns. */
  datatype Parsed = Parsed(value: Value, error: Option<string>)

  /** _setting(settings, key, is_required, valtype). */
  function Setting(settings: Settings, key: string, isRequired: bool, valtype: SettingType): (r: Parsed)
    ensures r.error.Some? ==> r.value == NoneV
    ensures r.error == Some(MissingMessage(key)) <==> key !in settings && isRequired
    ensures r == Parsed(NoneV, None) <==> !isRequired && (key !in settings || settings[key] == NoneV)
    ensures key in settings && (isRequired || settings[key] != NoneV) && !IsInstance(settings[key], TypeFor(valtype))
      <==> r.error.Some? && r.error != Some(MissingMessage(key))
    ensures r.error.Some? && key in settings ==> r.error == Some(TypeMessage(key, valtype, settings[key]))
    ensures key in settings && IsInstance(settings[key], TypeFor(valtype)) <==> r.error.None? && r.value != NoneV
    ensures r.error.None? && r.value != NoneV ==> r.value == settings[key]
  {
    if key !in settings then
      if isRequired then Parsed(NoneV, Some(MissingMessage(key))) else Parsed(NoneV, None)
    else
      var value := settings[key];
      if value == NoneV && !isRequired then Parsed(NoneV, None)
      else if !IsInstance(value, TypeFor(valtype)) then
        assert TypeMessage(key, valtype, value)[0] != MissingMessage(key)[0];
        Parsed(NoneV, Some(TypeMessage(key, valtype, value)))
      else Parsed(value, None)
  }

  /** A setting that _setting accepts with a value of the wanted type. */
  predicate Has(settings: Settings, key: string, valtype: SettingType)
  {
    key in settings && IsInstance(settings[key], TypeFor(valtype))
  }

  /** A setting that _setting accepts as optional: absent, None, or of the wanted type. */
  predicate OptionalOk(settings: Settings, key: string, valtype: SettingType)
  {
    key !in settings || settings[key] == NoneV || IsInstance(settings[key], TypeFor(valtype))
  }

  /** The checks of one setting see only that key's entry. */
  lemma SameEntry(a: Settings, b: Settings, key: string, isRequired: bool, valtype: SettingType)
    requires (key in a) == (key in b) && (key in a ==> a[key] == b[key])
    ensures Setting(a, key, isRequired, valtype) == Setting(b, key, isRequired, valtype)
    ensures Has(a, key, valtype) == Has(b, key, valtype) && OptionalOk(a, key, valtype) == OptionalOk(b, key, valtype)
  {
  }

  lemma SettingAccepts(settings: Settings, key: string, isRequired: bool, valtype: SettingType)
    ensures Setting(settings, key, isRequired, valtype).error.None? <==>
      (if isRequired then Has(settings, key, valtype) else OptionalOk(settings, key, valtype))
  {
  }

  // ---------------------------------------------------------------- validation results

  /** What validate() does: returns None, returns an error text, or raises. */
  datatype Check = Pass | Fail(msg: string) | Crash(exc: Exception)

  function FromError(err: Option<string>): Check
  {
    if err.Some? then Fail(err.value) else Pass
  }

  /** The environment a subprocess command's validation sees. */
  datatype Host = Host(
    fs: FsMap,
    pidFile: string,               // the configured subprocess_pid_file; "" when unset
    live: map<int, string>,        // running processes by PID, with their str(psutil.Process)
    mkdirErrors: map<string, string>, // directories whose creation raises, with the error text
    clock: MTime)                  // the modification time of directories created now

  /** validate()'s verdict, the settings afterwards (blender_cmd becomes a list) and the file system afterwards. */
  datatype Validated = Validated(check: Check, settings: Settings, fs: FsMap)

  // ---------------------------------------------------------------- simple commands

  function EchoValidate(settings: Settings): (c: Check)
    ensures c == Pass <==> "message" in settings && settings["message"].StrV?
    ensures "message" !in settings ==> c == Fail("Missing \"message\"")
    ensures !c.Crash?
  {
    if "message" !in settings then Fail("Missing \"message\"")
    else if !settings["message"].StrV? then Fail("Message must be a string")
    else Pass
  }

  /** settings.get('lines', 20000), made an int when it is a float. */
  function LogLines(settings: Settings): Value
  {
    var lines := if "lines" in settings then settings["lines"] else IntV(20000);
    if lines.FloatV? then IntV(lines.f.Floor + (if lines.f < 0.0 && lines.f.Floor as real != lines.f then 1 else 0)) else lines
  }

  function LogALotValidate(settings: Settings): (c: Check)
    ensures c == Pass <==> "lines" !in settings || IsInstance(settings["lines"], IntType) || settings["lines"].FloatV?
    ensures !c.Crash?
  {
    var lines := LogLines(settings);
    if IsInstance(lines, IntType) then Pass
    else Fail("\"lines\" setting must be an integer, not " + ClassRepr(TypeOf(lines)))
  }

  function SleepValidate(settings: Settings): (c: Check)
    ensures c == Pass <==>
      "time_in_seconds" in settings && (IsInstance(settings["time_in_seconds"], IntType) || settings["time_in_seconds"].FloatV?)
    ensures !c.Crash?
  {
    if "time_in_seconds" !in settings then Fail("Missing \"time_in_seconds\"")
    else if !(IsInstance(settings["time_in_seconds"], IntType) || settings["time_in_seconds"].FloatV?) then
      Fail("time_in_seconds must be an int or float")
    else Pass
  }

  function MoveOutOfWayValidate(settings: Settings): (c: Check)
    ensures c == Pass <==> "src" in settings && settings["src"].StrV?
    ensures !c.Crash?
  {
    if "src" !in settings then Fail("Missing \"src\"")
    else if !settings["src"].StrV? then Fail("src must be a string")
    else Pass
  }

  /** `err1 or err2`. */
  function FirstError(err1: Option<string>, err2: Option<string>): Option<string>
  {
    if err1.Some? && err1.value != [] then err1 else err2
  }

  function MoveToFinalValidate(settings: Settings): (c: Check)
    ensures c == Pass <==> Has(settings, "src", StrSetting) && Has(settings, "dest", StrSetting)
    ensures !Has(settings, "src", StrSetting) ==> c == FromError(Setting(settings, "src", true, StrSetting).error)
    ensures !c.Crash?
  {
    FromError(FirstError(Setting(settings, "src", true, StrSetting).error, Setting(settings, "dest", true, StrSetting).error))
  }

  function CopyFileValidate(settings: Settings): (c: Check)
    ensures c == Pass <==>
      Has(settings, "src", StrSetting) && settings["src"].s != [] &&
      Has(settings, "dest", StrSetting) && settings["dest"].s != []
    ensures Has(settings, "src", StrSetting) && settings["src"].s == [] ==> c == Fail("src may not be empty")
    ensures !c.Crash?
  {
    var src := Setting(settings, "src", true, StrSetting);
    if src.error.Some? then Fail(src.error.value)
    else if !Truthy(src.value) then Fail("src may not be empty")
    else
      var dest := Setting(settings, "dest", true, StrSetting);
      if dest.error.Some? then Fail(dest.error.value)
      else if !Truthy(dest.value) then Fail("dest may not be empty")
      else Pass
  }

  function RemoveTreeValidate(settings: Settings): (c: Check)
    ensures c == Pass <==> Has(settings, "path", StrSetting) && settings["path"].s != []
    ensures Has(settings, "path", StrSetting) && settings["path"].s == [] ==> c == Fail("'path' may not be empty")
    ensures !c.Crash?
  {
    var path := Setting(settings, "path", true, StrSetting);
    if path.error.Some? then Fail(path.error.value)
    else if !Truthy(path.value) then Fail("'path' may not be empty")
    else Pass
  }

  // ---------------------------------------------------------------- the PID-file check

  /** Whether the configured PID file names a process that still runs. */
  datatype PidState = NoPidFile | EmptyPidFile | UnreadablePidFile | BadPid | NegativePid(pid: int) | StalePid(pid: int) | LivePid(pid: int)

  function PidFileState(h: Host): PidState
  {
    if h.pidFile == [] then NoPidFile
    else
      var p := PathOf(h.pidFile);
      if p !in h.fs then NoPidFile
      else if h.fs[p].Directory? then UnreadablePidFile
      else if h.fs[p].data == [] then EmptyPidFile
      else match ParseInt(h.fs[p].data)
        case None => BadPid
        case Some(pid) => if pid < 0 then NegativePid(pid) else if pid in h.live then LivePid(pid) else StalePid(pid)
  }

  /**
   * AbstractSubprocessCommand.validate: passes when no PID file is configured or present;
   * deletes an empty or stale PID file and passes; refuses while the PID is alive.
   * Text that int() cannot read raises its ValueError, and a negative PID the
   * ValueError of psutil.Process.
   */
  function CheckPidFile(h: Host): (r: Validated)
    ensures r.settings == map[]
    ensures r.check.Pass? <==> PidFileState(h).NoPidFile? || PidFileState(h).EmptyPidFile? || PidFileState(h).StalePid?
    ensures PidFileState(h).BadPid? ==>
      r.check == Crash(Exception("ValueError", "invalid literal for int() with base 10: " + Repr(h.fs[PathOf(h.pidFile)].data)))
    ensures PidFileState(h).NegativePid? ==>
      r.check == Crash(Exception("ValueError", "pid must be a positive integer (got " + IntToString(PidFileState(h).pid) + ")"))
    ensures (PidFileState(h).EmptyPidFile? || PidFileState(h).StalePid?) ==> r.fs == h.fs - {PathOf(h.pidFile)}
    ensures !(PidFileState(h).EmptyPidFile? || PidFileState(h).StalePid?) ==> r.fs == h.fs
    ensures PidFileState(h).LivePid? ==>
      r.check == Fail("Subprocess from " + PathText(PathOf(h.pidFile)) + " is still running: " + h.live[PidFileState(h).pid])
    ensures PathOf(h.pidFile) !in r.fs || r.fs == h.fs
  {
    var p := PathOf(h.pidFile);
    match PidFileState(h)
    case NoPidFile => Validated(Pass, map[], h.fs)
    case EmptyPidFile => Validated(Pass, map[], h.fs - {p})
    case UnreadablePidFile => Validated(Crash(Exception("IsADirectoryError", "[Errno 21] Is a directory: " + Repr(PathText(p)))), map[], h.fs)
    case BadPid => Validated(Crash(Exception("ValueError", "invalid literal for int() with base 10: " + Repr(h.fs[p].data))), map[], h.fs)
    case NegativePid(pid) => Validated(Crash(Exception("ValueError", "pid must be a positive integer (got " + IntToString(pid) + ")")), map[], h.fs)
    case StalePid(_) => Validated(Pass, map[], h.fs - {p})
    case LivePid(pid) => Validated(Fail("Subprocess from " + PathText(p) + " is still running: " + h.live[pid]), map[], h.fs)
  }

  /** A PID file holding "-5": int() reads it, and psutil.Process(-5) refuses it. */
  lemma NegativePidCrashes(h: Host)
    requires h.pidFile != [] && PathOf(h.pidFile) in h.fs && h.fs[PathOf(h.pidFile)].File? && h.fs[PathOf(h.pidFile)].data == "-5"
    ensures CheckPidFile(h).check == Crash(Exception("ValueError", "pid must be a positive integer (got -5)"))
    ensures CheckPidFile(h).fs == h.fs
  {
    assert Strip("-5") == "-5";
    assert "-5"[1..] == "5" && DigitsValue("5") == 5;
    assert ParseInt("-5") == Some(-5);
    assert IntToString(-5) == "-5";
  }

  /** A validation that ends with the PID check, keeping the given settings. */
  function ThenPidCheck(settings: Settings, h: Host): (r: Validated)
    ensures r.check == CheckPidFile(h).check && r.fs == CheckPidFile(h).fs && r.settings == settings
  {
    var pid := CheckPidFile(h);
    Validated(pid.check, settings, pid.fs)
  }

  function ExecValidate(settings: Settings, h: Host): (r: Validated)
    ensures r.settings == settings
    ensures r.check.Pass? <==> Has(settings, "cmd", StrSetting) && settings["cmd"].s != [] && CheckPidFile(h).check.Pass?
    ensures !(Has(settings, "cmd", StrSetting) && settings["cmd"].s != []) ==> r.fs == h.fs
  {
    if "cmd" !in settings then Validated(Fail("Missing \"cmd\""), settings, h.fs)
    else if !settings["cmd"].StrV? then Validated(Fail("\"cmd\" must be a string"), settings, h.fs)
    else if settings["cmd"].s == [] then Validated(Fail("\"cmd\" may not be empty"), settings, h.fs)
    else ThenPidCheck(settings, h)
  }

  // ---------------------------------------------------------------- Blender commands

  /** shlex.split of the blender_cmd setting. */
  function BlenderTokens(settings: Settings): Result<seq<string>>
    requires Has(settings, "blender_cmd", StrSetting)
  {
    Shlex.Split(settings["blender_cmd"].s)
  }

  /** The blender_cmd setting is a str that splits into words, the first naming an existing path. */
  predicate BlenderCmdUsable(settings: Settings, fs: FsMap)
  {
    Has(settings, "blender_cmd", StrSetting) && BlenderTokens(settings).Ok? &&
    BlenderTokens(settings).value != [] && Exists(fs, PathOf(BlenderTokens(settings).value[0]))
  }

  function StrList(words: seq<string>): (vs: seq<Value>)
    ensures |vs| == |words| && forall i :: 0 <= i < |words| ==> vs[i] == StrV(words[i])
  {
    seq(|words|, i requires 0 <= i < |words| => StrV(words[i]))
  }

  /** The first steps of BlenderRender and MergeProgressiveRenders validation: blender_cmd. */
  function CheckBlenderCmd(settings: Settings, fs: FsMap): (r: Validated)
    ensures r.fs == fs
    ensures r.check.Pass? <==> BlenderCmdUsable(settings, fs)
    ensures r.check.Pass? ==> r.settings == settings["blender_cmd" := ListV(StrList(BlenderTokens(settings).value))]
    ensures !r.check.Pass? ==> r.settings == settings
    ensures Has(settings, "blender_cmd", StrSetting) && BlenderTokens(settings) == Ok([]) ==> r.check.Crash?
    ensures Has(settings, "blender_cmd", StrSetting) && BlenderTokens(settings).Raise? ==> r.check == Crash(BlenderTokens(settings).exc)
  {
    var cmd := Setting(settings, "blender_cmd", true, StrSetting);
    if cmd.error.Some? then Validated(Fail(cmd.error.value), settings, fs)
    else
      match Shlex.Split(cmd.value.s)
      case Raise(ex) => Validated(Crash(ex), settings, fs)
      case Ok(words) =>
        if words == [] then Validated(Crash(Exception("IndexError", "list index out of range")), settings, fs)
        else if !Exists(fs, PathOf(words[0])) then Validated(Fail("blender_cmd " + Repr(words[0]) + " does not exist"), settings, fs)
        else Validated(Pass, settings["blender_cmd" := ListV(StrList(words))], fs)
  }

  /** The directory BlenderRender creates for a truthy render_output. */
  function RenderOutputDir(renderOutput: string): string
  {
    PathText(Parent(PathOf(renderOutput)))
  }

  /**
   * Path(render_output).parent.mkdir(parents=True, exist_ok=True): the error the
   * host makes it raise, if any, or else MakeDirs on the file system.
   */
  function OutputMkdir(renderOutput: string, h: Host): (r: Result<FsMap>)
    ensures RenderOutputDir(renderOutput) in h.mkdirErrors ==> r.Raise? && r.exc.message == h.mkdirErrors[RenderOutputDir(renderOutput)]
    ensures RenderOutputDir(renderOutput) !in h.mkdirErrors ==> r == MakeDirs(h.fs, Parent(PathOf(renderOutput)), h.clock, true)
    ensures var dir := Parent(PathOf(renderOutput));
      RenderOutputDir(renderOutput) !in h.mkdirErrors && !Exists(h.fs, dir) && BlockedByFile(h.fs, Parent(dir)) ==>
      r == Raise(Exception("NotADirectoryError", MkdirError("[Errno 20] Not a directory", dir)))
  {
    var dir := Parent(PathOf(renderOutput));
    if PathText(dir) in h.mkdirErrors then Raise(Exception("OSError", h.mkdirErrors[PathText(dir)]))
    else MakeDirs(h.fs, dir, h.clock, true)
  }

  /** A truthy str render_output. */
  predicate HasRenderOutput(settings: Settings)
  {
    Has(settings, "render_output", StrSetting) && settings["render_output"].s != []
  }

  /** The file system once the render_output check is done: with the output directory made, when that worked. */
  function OutputFs(settings: Settings, h: Host): FsMap
  {
    if HasRenderOutput(settings) && OutputMkdir(settings["render_output"].s, h).Ok?
    then OutputMkdir(settings["render_output"].s, h).value else h.fs
  }

  /** The host the checks after render_output see. */
  function OutputHost(settings: Settings, h: Host): Host
  {
    h.(fs := OutputFs(settings, h))
  }

  /**
   * The render_output check only adds directories; when it passes for a truthy
   * render_output, the output directory exists as a directory afterwards.
   */
  lemma OutputDirMade(settings: Settings, h: Host)
    ensures GrownByDirs(h.fs, OutputFs(settings, h), h.clock)
    ensures HasRenderOutput(settings) && OutputMkdir(settings["render_output"].s, h).Ok? ==>
      IsDir(OutputFs(settings, h), Parent(PathOf(settings["render_output"].s)))
  {
    if HasRenderOutput(settings) {
      MakeDirsGrows(h.fs, Parent(PathOf(settings["render_output"].s)), h.clock, true);
    }
  }

  /** Every setting of blender_render is acceptable, apart from the PID check. */
  predicate BlenderSettingsAcceptable(settings: Settings, h: Host)
  {
    BlenderCmdUsable(settings, h.fs) && BlenderOutputAcceptable(settings, h)
  }

  /** render_output is absent, None, or a str whose directory can be made. */
  predicate RenderOutputAcceptable(settings: Settings, h: Host)
  {
    OptionalOk(settings, "render_output", StrSetting) &&
    (HasRenderOutput(settings) ==> OutputMkdir(settings["render_output"].s, h).Ok?)
  }

  /**
   * The blender_render settings checked after blender_cmd: render_output, frames,
   * render_format, and filepath, which must exist once the output directory is made.
   */
  predicate BlenderOutputAcceptable(settings: Settings, h: Host)
  {
    RenderOutputAcceptable(settings, h) &&
    OptionalOk(settings, "frames", StrSetting) &&
    OptionalOk(settings, "render_format", StrSetting) &&
    Has(settings, "filepath", StrSetting) && Exists(OutputFs(settings, h), PathOf(settings["filepath"].s))
  }

  /** Replacing blender_cmd does not change what the later blender_render checks see. */
  lemma BlenderOutputIgnoresBlenderCmd(settings: Settings, s: Settings, cmd: Value, h: Host)
    requires s == settings["blender_cmd" := cmd]
    ensures BlenderOutputAcceptable(s, h) == BlenderOutputAcceptable(settings, h)
    ensures RenderOutputAcceptable(s, h) == RenderOutputAcceptable(settings, h)
    ensures OutputFs(s, h) == OutputFs(settings, h)
    ensures ("render_output" in s) == ("render_output" in settings) && ("render_output" in s ==> s["render_output"] == settings["render_output"])
    ensures ("filepath" in s) == ("filepath" in settings) && ("filepath" in s ==> s["filepath"] == settings["filepath"])
  {
    assert "render_output" != "blender_cmd" && "frames" != "blender_cmd";
    assert "render_format" != "blender_cmd" && "filepath" != "blender_cmd";
    SameEntry(s, settings, "render_output", false, StrSetting);
    SameEntry(s, settings, "frames", false, StrSetting);
    SameEntry(s, settings, "render_format", false, StrSetting);
    SameEntry(s, settings, "filepath", true, StrSetting);
  }

  /** The message for a render_output directory that cannot be created. */
  function MkdirMessage(dir: string, error: string): string
  {
    "\"render_output\": dir " + dir + " cannot be created: " + error
  }

  /**
   * The render_output check: a wrong type fails, and so does a truthy
   * render_output whose directory cannot be made; `fs` is OutputFs.
   */
  function CheckRenderOutput(s: Settings, h: Host): (r: Validated)
    ensures r.settings == s && r.fs == OutputFs(s, h)
    ensures r.check.Pass? <==> RenderOutputAcceptable(s, h)
    ensures !r.check.Crash?
    ensures HasRenderOutput(s) && OutputMkdir(s["render_output"].s, h).Raise? ==>
      r.check == Fail(MkdirMessage(RenderOutputDir(s["render_output"].s), OutputMkdir(s["render_output"].s, h).exc.message))
  {
    var ro := Setting(s, "render_output", false, StrSetting);
    if ro.error.Some? then Validated(Fail(ro.error.value), s, h.fs)
    else if Truthy(ro.value) then
      match OutputMkdir(ro.value.s, h)
      case Raise(ex) => Validated(Fail(MkdirMessage(RenderOutputDir(ro.value.s), ex.message)), s, h.fs)
      case Ok(fs) => Validated(Pass, s, fs)
    else Validated(Pass, s, h.fs)
  }

  /** The blender_render checks after blender_cmd, then the PID check on the file system they leave. */
  function BlenderOutputValidate(s: Settings, h: Host): (r: Validated)
    ensures r.settings == s
    ensures r.check.Pass? <==> BlenderOutputAcceptable(s, h) && CheckPidFile(OutputHost(s, h)).check.Pass?
    ensures !BlenderOutputAcceptable(s, h) ==> r.fs == OutputFs(s, h)
    ensures BlenderOutputAcceptable(s, h) ==> r.fs == CheckPidFile(OutputHost(s, h)).fs
  {
    var ro := CheckRenderOutput(s, h);
    if !ro.check.Pass? then ro
    else
      var frames := Setting(s, "frames", false, StrSetting);
      if frames.error.Some? then Validated(Fail(frames.error.value), s, ro.fs)
      else
        var format := Setting(s, "render_format", false, StrSetting);
        if format.error.Some? then Validated(Fail(format.error.value), s, ro.fs)
        else
          var filepath := Setting(s, "filepath", true, StrSetting);
          if filepath.error.Some? then Validated(Fail(filepath.error.value), s, ro.fs)
          else if !Exists(ro.fs, PathOf(filepath.value.s)) then Validated(Fail("filepath " + Repr(filepath.value.s) + " does not exist"), s, ro.fs)
          else ThenPidCheck(s, OutputHost(s, h))
  }

  /** A truthy render_output whose directory cannot be made is the first failure after blender_cmd. */
  lemma OutputMkdirFails(s: Settings, h: Host)
    requires HasRenderOutput(s) && OutputMkdir(s["render_output"].s, h).Raise?
    ensures BlenderOutputValidate(s, h).check ==
      Fail(MkdirMessage(RenderOutputDir(s["render_output"].s), OutputMkdir(s["render_output"].s, h).exc.message))
    ensures BlenderOutputValidate(s, h).fs == h.fs
  {
  }

  function BlenderRenderValidate(settings: Settings, h: Host): (r: Validated)
    ensures r.check.Pass? <==> BlenderSettingsAcceptable(settings, h) && CheckPidFile(OutputHost(settings, h)).check.Pass?
    ensures BlenderCmdUsable(settings, h.fs) ==> r.settings == settings["blender_cmd" := ListV(StrList(BlenderTokens(settings).value))]
    ensures !BlenderCmdUsable(settings, h.fs) ==> r.fs == h.fs
    ensures BlenderCmdUsable(settings, h.fs) && !BlenderOutputAcceptable(settings, h) ==> r.fs == OutputFs(settings, h)
    ensures BlenderSettingsAcceptable(settings, h) ==> r.fs == CheckPidFile(OutputHost(settings, h)).fs
  {
    var first := CheckBlenderCmd(settings, h.fs);
    if !first.check.Pass? then first
    else
      var s := first.settings;
      BlenderOutputIgnoresBlenderCmd(settings, s, ListV(StrList(BlenderTokens(settings).value)), h);
      BlenderOutputValidate(s, h)
  }

  /**
   * A usable blender_cmd and a truthy render_output whose directory cannot be
   * made fail with the mkdir message, the host's injected error text included.
   */
  lemma RenderOutputMkdirFails(settings: Settings, h: Host)
    requires BlenderCmdUsable(settings, h.fs) && HasRenderOutput(settings)
    requires RenderOutputDir(settings["render_output"].s) in h.mkdirErrors
    ensures var dir := RenderOutputDir(settings["render_output"].s);
      BlenderRenderValidate(settings, h).check == Fail(MkdirMessage(dir, h.mkdirErrors[dir]))
  {
    var s := CheckBlenderCmd(settings, h.fs).settings;
    BlenderOutputIgnoresBlenderCmd(settings, s, ListV(StrList(BlenderTokens(settings).value)), h);
    OutputMkdirFails(s, h);
  }

  function PositiveMessage(key: string): string { "\"" + key + "\" must be a positive integer" }

  /** A required int setting of at least 1. */
  predicate PositiveInt(settings: Settings, key: string)
  {
    Has(settings, key, IntSetting) && AsInt(settings[key]) >= 1
  }

  function BlenderRenderProgressiveValidate(settings: Settings, h: Host): (r: Validated)
    ensures r.check.Pass? <==>
      BlenderSettingsAcceptable(settings, h) && CheckPidFile(OutputHost(settings, h)).check.Pass? &&
      PositiveInt(settings, "cycles_num_chunks") && PositiveInt(settings, "cycles_chunk")
    ensures (BlenderRenderValidate(settings, h).check.Pass? && Has(settings, "cycles_num_chunks", IntSetting) &&
      AsInt(settings["cycles_num_chunks"]) < 1) ==> r.check == Fail(PositiveMessage("cycles_num_chunks"))
    ensures (BlenderRenderValidate(settings, h).check.Pass? && PositiveInt(settings, "cycles_num_chunks") &&
      Has(settings, "cycles_chunk", IntSetting) && AsInt(settings["cycles_chunk"]) < 1) ==> r.check == Fail(PositiveMessage("cycles_chunk"))
    ensures r.fs == BlenderRenderValidate(settings, h).fs
  {
    var base := BlenderRenderValidate(settings, h);
    if !base.check.Pass? then base
    else
      var s := base.settings;
      assert "cycles_num_chunks" != "blender_cmd" && "cycles_chunk" != "blender_cmd";
      assert forall k :: k in settings && k != "blender_cmd" ==> k in s && s[k] == settings[k];
      var n := Setting(s, "cycles_num_chunks", true, IntSetting);
      if n.error.Some? then Validated(Fail(n.error.value), s, base.fs)
      else if AsInt(n.value) < 1 then Validated(Fail(PositiveMessage("cycles_num_chunks")), s, base.fs)
      else
        var c := Setting(s, "cycles_chunk", true, IntSetting);
        if c.error.Some? then Validated(Fail(c.error.value), s, base.fs)
        else if AsInt(c.value) < 1 then Validated(Fail(PositiveMessage("cycles_chunk")), s, base.fs)
        else base
  }

  /** A required str setting without a double quote. */
  predicate QuoteFree(settings: Settings, key: string)
  {
    Has(settings, key, StrSetting) && '"' !in settings[key].s
  }

  /** Every setting of merge_progressive_renders is acceptable, apart from the PID check. */
  predicate MergeSettingsAcceptable(settings: Settings, fs: FsMap)
  {
    BlenderCmdUsable(settings, fs) && MergeInputsAcceptable(settings, fs)
  }

  /** The merge settings checked after blender_cmd: the two inputs, the output and the weights. */
  predicate MergeInputsAcceptable(settings: Settings, fs: FsMap)
  {
    QuoteFree(settings, "input1") && Exists(fs, PathOf(settings["input1"].s)) &&
    QuoteFree(settings, "input2") && Exists(fs, PathOf(settings["input2"].s)) &&
    QuoteFree(settings, "output") &&
    Has(settings, "weight1", IntSetting) && Has(settings, "weight2", IntSetting)
  }

  /** Replacing blender_cmd does not change what the later merge checks see. */
  lemma MergeInputsIgnoreBlenderCmd(settings: Settings, s: Settings, cmd: Value, fs: FsMap)
    requires s == settings["blender_cmd" := cmd]
    ensures MergeInputsAcceptable(s, fs) == MergeInputsAcceptable(settings, fs)
    ensures ("input1" in s) == ("input1" in settings) && ("input1" in s ==> s["input1"] == settings["input1"])
  {
    assert "input1" != "blender_cmd" && "input2" != "blender_cmd" && "output" != "blender_cmd";
    assert "weight1" != "blender_cmd" && "weight2" != "blender_cmd";
  }

  function QuoteMessage(name: string): string { "Double quotes are not allowed in filenames: " + Repr(name) }

  /** The input checks of merge_progressive_renders, for input1 (n = "1") and input2 (n = "2"). */
  function CheckInput(s: Settings, key: string, n: string, fs: FsMap): (r: Option<string>)
    ensures r.None? <==> QuoteFree(s, key) && Exists(fs, PathOf(s[key].s))
    ensures Has(s, key, StrSetting) && '"' in s[key].s ==> r == Some(QuoteMessage(s[key].s))
  {
    var input := Setting(s, key, true, StrSetting);
    if input.error.Some? then input.error
    else if '"' in input.value.s then Some(QuoteMessage(input.value.s))
    else if !Exists(fs, PathOf(input.value.s)) then Some("Input " + n + " " + Repr(input.value.s) + " does not exist")
    else None
  }

  /** The merge checks after blender_cmd, on the settings that check left: input1, input2, output, the weights, the PID file. */
  function MergeInputsValidate(s: Settings, h: Host): (r: Validated)
    ensures r.settings == s
    ensures r.check.Pass? <==> MergeInputsAcceptable(s, h.fs) && CheckPidFile(h).check.Pass?
    ensures !MergeInputsAcceptable(s, h.fs) ==> r.fs == h.fs
    ensures MergeInputsAcceptable(s, h.fs) ==> r.fs == CheckPidFile(h).fs
  {
    match CheckInput(s, "input1", "1", h.fs)
    case Some(e) => Validated(Fail(e), s, h.fs)
    case None =>
      match CheckInput(s, "input2", "2", h.fs)
      case Some(e) => Validated(Fail(e), s, h.fs)
      case None =>
        var output := Setting(s, "output", true, StrSetting);
        if output.error.Some? then Validated(Fail(output.error.value), s, h.fs)
        else if '"' in output.value.s then Validated(Fail(QuoteMessage(output.value.s)), s, h.fs)
        else
          var w1 := Setting(s, "weight1", true, IntSetting);
          if w1.error.Some? then Validated(Fail(w1.error.value), s, h.fs)
          else
            var w2 := Setting(s, "weight2", true, IntSetting);
            if w2.error.Some? then Validated(Fail(w2.error.value), s, h.fs)
            else ThenPidCheck(s, h)
  }

  function MergeProgressiveRendersValidate(settings: Settings, h: Host): (r: Validated)
    ensures r.check.Pass? <==> MergeSettingsAcceptable(settings, h.fs) && CheckPidFile(h).check.Pass?
    ensures !MergeSettingsAcceptable(settings, h.fs) ==> r.fs == h.fs
    ensures MergeSettingsAcceptable(settings, h.fs) ==> r.fs == CheckPidFile(h).fs
  {
    var first := CheckBlenderCmd(settings, h.fs);
    if !first.check.Pass? then first
    else
      var s := first.settings;
      MergeInputsIgnoreBlenderCmd(settings, s, ListV(StrList(BlenderTokens(settings).value)), h.fs);
      MergeInputsValidate(s, h)
  }

  /** With a usable blender_cmd, a double quote in input1 is the failure reported. */
  lemma Input1QuoteFails(settings: Settings, h: Host)
    requires BlenderCmdUsable(settings, h.fs) && Has(settings, "input1", StrSetting) && '"' in settings["input1"].s
    ensures MergeProgressiveRendersValidate(settings, h).check == Fail(QuoteMessage(settings["input1"].s))
  {
    var s := CheckBlenderCmd(settings, h.fs).settings;
    MergeInputsIgnoreBlenderCmd(settings, s, ListV(StrList(BlenderTokens(settings).value)), h.fs);
    assert CheckInput(s, "input1", "1", h.fs) == Some(QuoteMessage(s["input1"].s));
  }

  /** The validate rule of each registered command class. */
  function Validate(kind: CommandKind, settings: Settings, h: Host): (r: Validated)
    ensures kind !in {Exec, BlenderRender, BlenderRenderProgressive, MergeProgressiveRenders} ==>
      r.fs == h.fs && r.settings == settings && !r.check.Crash?
  {
    match kind
    case Echo => Validated(EchoValidate(settings), settings, h.fs)
    case LogALot => Validated(LogALotValidate(settings), settings, h.fs)
    case Sleep => Validated(SleepValidate(settings), settings, h.fs)
    case MoveOutOfWay => Validated(MoveOutOfWayValidate(settings), settings, h.fs)
    case MoveToFinal => Validated(MoveToFinalValidate(settings), settings, h.fs)
    case CopyFile => Validated(CopyFileValidate(settings), settings, h.fs)
    case RemoveTree => Validated(RemoveTreeValidate(settings), settings, h.fs)
    case Exec => ExecValidate(settings, h)
    case BlenderRender => BlenderRenderValidate(settings, h)
    case BlenderRenderProgressive => BlenderRenderProgressiveValidate(settings, h)
    case MergeProgressiveRenders => MergeProgressiveRendersValidate(settings, h)
  }

  // ---------------------------------------------------------------- the run protocol

  /** A call a command makes on its worker. */
  datatype WorkerCall =
    | RegisterLog(entry: string)
    | RegisterTaskUpdate(taskStatus: Option<string>, update: ActivityUpdate)

  /** How execute() ended. */
  datatype ExecOutcome = Completed | ExecError(error: Exception) | Cancelled

  /** What run() did: returned True or False, or let an exception through. */
  datatype RunResult = Returned(success: bool) | Propagated(exc: Exception)

  datatype RunTrace = RunTrace(result: RunResult, calls: seq<WorkerCall>, executed: bool)

  /** The identifier '<name>.(task_id=<id>, command_idx=<idx>)'. */
  function Identifier(name: string, taskId: string, idx: int): string
  {
    name + ".(task_id=" + taskId + ", command_idx=" + IntToString(idx) + ")"
  }

  /** str(ex) for an exception. */
  function ExceptionText(ex: Exception): string { ex.message }

  predicate SetsStatus(c: WorkerCall) { c.RegisterTaskUpdate? && c.taskStatus.Some? }

  predicate ReportsProgress(c: WorkerCall, idx: int, percentage: int)
  {
    c.RegisterTaskUpdate? && c.update.currentCommandIdx == Some(idx) && c.update.commandProgressPercentage == Some(percentage)
  }

  /**
   * AbstractCommand.run for a command whose validate() gave `verdict` and whose
   * execute() would end with `exec`: the worker calls it makes and what it returns.
   */
  function Run(name: string, taskId: string, idx: int, verdict: Check, exec: ExecOutcome): (t: RunTrace)
    ensures t.executed <==> verdict.Pass?
    ensures t.result == Returned(true) <==> verdict.Pass? && exec.Completed?
    ensures verdict.Crash? ==> t.result == Propagated(verdict.exc) && t.calls == []
    ensures verdict.Fail? ==> (t.result == Returned(false) && |t.calls| == 2 &&
      t.calls[1] == RegisterTaskUpdate(Some("failed"),
        ActivityUpdate(Some(Identifier(name, taskId, idx) + ": Invalid settings: " + verdict.msg), None, None, None)))
    ensures verdict.Pass? ==> |t.calls| >= 2 && ReportsProgress(t.calls[1], idx, 0)
    ensures verdict.Pass? && exec.Completed? ==> |t.calls| == 4 && ReportsProgress(t.calls[3], idx, 100)
    ensures verdict.Pass? ==> forall i :: 0 <= i < |t.calls| ==> !SetsStatus(t.calls[i])
    ensures verdict.Pass? && exec.ExecError? ==> (t.result == Returned(false) &&
      t.calls[|t.calls| - 1].RegisterTaskUpdate? &&
      t.calls[|t.calls| - 1].update.activity == Some(Identifier(name, taskId, idx) + ": Error executing: " + ExceptionText(exec.error)))
    ensures verdict.Pass? && exec.Cancelled? ==> t.result.Propagated? && t.result.exc.kind == "CancelledError"
  {
    var ident := Identifier(name, taskId, idx);
    match verdict
    case Crash(ex) => RunTrace(Propagated(ex), [], false)
    case Fail(msg) =>
      RunTrace(Returned(false), [
        RegisterLog(ident + ": Error in settings: " + msg),
        RegisterTaskUpdate(Some("failed"), ActivityUpdate(Some(ident + ": Invalid settings: " + msg), None, None, None))], false)
    case Pass =>
      var started := [
        RegisterLog(name + ": Starting"),
        RegisterTaskUpdate(None, ActivityUpdate(Some("starting " + name), Some(idx), None, Some(0)))];
      match exec
      case Completed =>
        RunTrace(Returned(true), started + [
          RegisterLog(name + ": Finished"),
          RegisterTaskUpdate(None, ActivityUpdate(Some("finished " + name), Some(idx), None, Some(100)))], true)
      case ExecError(ex) =>
        var text := ident + ": Error executing: " + ExceptionText(ex);
        RunTrace(Returned(false), started + [
          RegisterLog(text), RegisterTaskUpdate(None, ActivityUpdate(Some(text), None, None, None))], true)
      case Cancelled =>
        RunTrace(Propagated(Exception("CancelledError", "")), started, true)
  }
}
