// runner.py, the older copy of the command layer: its TaskRunner, which runs a
// task's commands in order and stops at the first failure, its own registry and
// validators, its Blender command line and line processing, and its
// MoveOutOfWay command with the `-N` collision suffix.
module Runner {
  import opened Wrappers
  import opened Text
  import opened Values
  import opened Files
  import opened Commands
  import opened Blender
  import FileCommands

  // ---------------------------------------------------------------- registry

  /** The names runner.py registers, in declaration order. */
  const LegacyCommandNames: seq<(string, CommandKind)> := [
    ("echo", Echo), ("sleep", Sleep), ("move_out_of_way", MoveOutOfWay), ("exec", Exec),
    ("blender_render", BlenderRender), ("blender_render_progressive", BlenderRenderProgressive),
    ("merge_progressive_renders", MergeProgressiveRenders)]

  lemma LegacyCommandNamesDistinct()
    ensures DistinctNames(LegacyCommandNames)
  {
  }

  // ---------------------------------------------------------------- validators

  /** ExecCommand.validate of runner.py, which has no PID-file check. */
  function LegacyExecValidate(settings: Settings): (c: Check)
    ensures c == Pass <==> Has(settings, "cmd", StrSetting) && settings["cmd"].s != []
    ensures !c.Crash?
  {
    if "cmd" !in settings then Fail("Missing \"cmd\"")
    else if !settings["cmd"].StrV? then Fail("\"cmd\" must be a string")
    else if settings["cmd"].s == [] then Fail("\"cmd\" may not be empty")
    else Pass
  }

  /** With no PID file configured, both exec validators give the same verdict. */
  lemma LegacyExecAgrees(settings: Settings, h: Host)
    requires h.pidFile == []
    ensures ExecValidate(settings, h).check == LegacyExecValidate(settings)
  {
  }

  /** The filepath message of both Blender validators, for settings whose filepath is not usable. */
  function FilepathProblem(settings: Settings): Check
  {
    if Has(settings, "filepath", StrSetting) then Fail("filepath " + Repr(settings["filepath"].s) + " does not exist")
    else FromError(Setting(settings, "filepath", true, StrSetting).error)
  }

  /** A required str filepath that exists. */
  predicate FilepathExists(settings: Settings, fs: FsMap)
  {
    Has(settings, "filepath", StrSetting) && Exists(fs, PathOf(settings["filepath"].s))
  }

  /**
   * The settings runner.py's BlenderRenderCommand.validate checks after
   * blender_cmd: filepath, which must exist before anything is made, then
   * render_output, frames and render_format.
   */
  predicate LegacyOutputAcceptable(settings: Settings, h: Host)
  {
    FilepathExists(settings, h.fs) && RenderOutputAcceptable(settings, h) &&
    OptionalOk(settings, "frames", StrSetting) && OptionalOk(settings, "render_format", StrSetting)
  }

  /** Every setting of runner.py's blender_render is acceptable. */
  predicate LegacySettingsAcceptable(settings: Settings, h: Host)
  {
    BlenderCmdUsable(settings, h.fs) && LegacyOutputAcceptable(settings, h)
  }

  /**
   * The checks of runner.py's BlenderRenderCommand.validate after blender_cmd,
   * filepath first: a missing filepath fails before the output directory is
   * made, and after that the file system is OutputFs.
   */
  function LegacyOutputValidate(s: Settings, h: Host): (r: Validated)
    ensures r.settings == s
    ensures r.check.Pass? <==> LegacyOutputAcceptable(s, h)
    ensures !FilepathExists(s, h.fs) ==> r.check == FilepathProblem(s) && r.fs == h.fs
    ensures FilepathExists(s, h.fs) ==> r.fs == OutputFs(s, h)
  {
    var filepath := Setting(s, "filepath", true, StrSetting);
    if filepath.error.Some? then Validated(Fail(filepath.error.value), s, h.fs)
    else if !Exists(h.fs, PathOf(filepath.value.s)) then Validated(Fail("filepath " + Repr(filepath.value.s) + " does not exist"), s, h.fs)
    else
      var ro := CheckRenderOutput(s, h);
      if !ro.check.Pass? then ro
      else
        var frames := Setting(s, "frames", false, StrSetting);
        if frames.error.Some? then Validated(Fail(frames.error.value), s, ro.fs)
        else
          var format := Setting(s, "render_format", false, StrSetting);
          if format.error.Some? then Validated(Fail(format.error.value), s, ro.fs)
          else Validated(Pass, s, ro.fs)
  }

  /** Replacing blender_cmd does not change what the later checks of runner.py see. */
  lemma LegacyOutputIgnoresBlenderCmd(settings: Settings, s: Settings, cmd: Value, h: Host)
    requires s == settings["blender_cmd" := cmd]
    ensures LegacyOutputAcceptable(s, h) == LegacyOutputAcceptable(settings, h)
    ensures FilepathExists(s, h.fs) == FilepathExists(settings, h.fs) && FilepathProblem(s) == FilepathProblem(settings)
    ensures OutputFs(s, h) == OutputFs(settings, h)
  {
    BlenderOutputIgnoresBlenderCmd(settings, s, cmd, h);
    SameEntry(s, settings, "filepath", true, StrSetting);
    assert "frames" != "blender_cmd" && "render_format" != "blender_cmd";
    SameEntry(s, settings, "frames", false, StrSetting);
    SameEntry(s, settings, "render_format", false, StrSetting);
  }

  /**
   * BlenderRenderCommand.validate of runner.py: the same checks as in commands.py,
   * but filepath is checked right after blender_cmd, before the output directory
   * is made, and there is no PID-file check.
   */
  function LegacyBlenderRenderValidate(settings: Settings, h: Host): (r: Validated)
    ensures r.check.Pass? <==> LegacySettingsAcceptable(settings, h)
    ensures BlenderCmdUsable(settings, h.fs) ==> r.settings == settings["blender_cmd" := ListV(StrList(BlenderTokens(settings).value))]
    ensures !BlenderCmdUsable(settings, h.fs) ==> r.fs == h.fs
    ensures BlenderCmdUsable(settings, h.fs) && !FilepathExists(settings, h.fs) ==>
      r.check == FilepathProblem(settings) && r.fs == h.fs
    ensures BlenderCmdUsable(settings, h.fs) && FilepathExists(settings, h.fs) ==> r.fs == OutputFs(settings, h)
  {
    var first := CheckBlenderCmd(settings, h.fs);
    if !first.check.Pass? then first
    else
      var s := first.settings;
      LegacyOutputIgnoresBlenderCmd(settings, s, ListV(StrList(BlenderTokens(settings).value)), h);
      LegacyOutputValidate(s, h)
  }

  /**
   * With no PID file configured, what runner.py accepts commands.py accepts too,
   * leaving the same file system; the converse holds when filepath exists before
   * the output directory is made.
   */
  lemma LegacyBlenderAgrees(settings: Settings, h: Host)
    requires h.pidFile == []
    ensures LegacyBlenderRenderValidate(settings, h).check.Pass? ==>
      BlenderRenderValidate(settings, h).check.Pass? &&
      BlenderRenderValidate(settings, h).fs == LegacyBlenderRenderValidate(settings, h).fs
    ensures BlenderRenderValidate(settings, h).check.Pass? && FilepathExists(settings, h.fs) ==>
      LegacyBlenderRenderValidate(settings, h).check.Pass?
  {
    OutputDirMade(settings, h);
    assert CheckPidFile(OutputHost(settings, h)).check.Pass? && CheckPidFile(OutputHost(settings, h)).fs == OutputFs(settings, h);
  }

  /**
   * The two orders disagree when render_output creates the filepath: for
   * render_output "/x/y/frame" and filepath "/x/y" on an empty file system,
   * commands.py makes /x/y and passes, runner.py finds no filepath and fails.
   */
  lemma FilepathMadeByRenderOutput(clock: MTime)
    ensures var s := map["render_output" := StrV("/x/y/frame"), "filepath" := StrV("/x/y")];
      var h := Host(map[], [], map[], map[], clock);
      BlenderOutputValidate(s, h).check == Pass &&
      LegacyOutputValidate(s, h).check == Fail("filepath " + Repr("/x/y") + " does not exist")
  {
    var s := map["render_output" := StrV("/x/y/frame"), "filepath" := StrV("/x/y")];
    var h := Host(map[], [], map[], map[], clock);
    ExampleCommandsPasses(s, h);
    ExampleLegacyFails(s, h);
  }

  lemma ExampleCommandsPasses(s: Settings, h: Host)
    requires s == map["render_output" := StrV("/x/y/frame"), "filepath" := StrV("/x/y")]
    requires h == Host(map[], [], map[], map[], h.clock)
    ensures BlenderOutputValidate(s, h).check == Pass
  {
    ExamplePaths();
    assert BlenderOutputAcceptable(s, h) by {
      ExampleOutputFs(s, h);
    }
    assert CheckPidFile(OutputHost(s, h)).check.Pass?;
  }

  lemma ExampleLegacyFails(s: Settings, h: Host)
    requires s == map["render_output" := StrV("/x/y/frame"), "filepath" := StrV("/x/y")]
    requires h == Host(map[], [], map[], map[], h.clock)
    ensures LegacyOutputValidate(s, h).check == Fail("filepath " + Repr("/x/y") + " does not exist")
  {
    ExamplePaths();
    assert !FilepathExists(s, h.fs);
  }

  /** The output directory check of that example makes /x and /x/y. */
  lemma ExampleOutputFs(s: Settings, h: Host)
    requires "render_output" in s && s["render_output"] == StrV("/x/y/frame")
    requires h.fs == map[] && h.mkdirErrors == map[]
    ensures RenderOutputAcceptable(s, h)
    ensures OutputFs(s, h) == map[Path("/", "x") := Directory(h.clock), Path("/x", "y") := Directory(h.clock)]
  {
    ExampleMkdir(h);
  }

  lemma ExampleMkdir(h: Host)
    requires h.fs == map[] && h.mkdirErrors == map[]
    ensures OutputMkdir("/x/y/frame", h) == Ok(map[Path("/", "x") := Directory(h.clock), Path("/x", "y") := Directory(h.clock)])
  {
    ExamplePaths();
    ExampleDirsMade(h.clock);
    assert Parent(PathOf("/x/y/frame")) == Path("/x", "y");
  }

  lemma ExamplePaths()
    ensures PathOf("/x/y/frame") == Path("/x/y", "frame") && PathOf("/x/y") == Path("/x", "y")
    ensures Parent(Path("/x", "y")) == Path("/", "x") && Parent(Path("/", "x")) == Path("/", "")
  {
    assert LastIndexIn("/x/y/frame", '/', 0, 10) == Some(4);
    assert LastIndexIn("/x/y", '/', 0, 4) == Some(2);
    assert LastIndexIn("/x", '/', 0, 2) == Some(0);
    assert LastIndexIn("/", '/', 0, 1) == Some(0);
  }

  /** makedirs("/x/y") on an empty file system makes /x and then /x/y. */
  lemma ExampleDirsMade(clock: MTime)
    ensures MakeDirs(map[], Path("/x", "y"), clock, true) ==
      Ok(map[Path("/", "x") := Directory(clock), Path("/x", "y") := Directory(clock)])
  {
    var out, top := Path("/x", "y"), Path("/", "x");
    ExamplePaths();
    assert MakeDirs(map[], top, clock, true) == Ok(map[top := Directory(clock)]);
  }

  /** BlenderRenderProgressiveCommand.validate of runner.py. */
  function LegacyProgressiveValidate(settings: Settings, h: Host): (r: Validated)
    ensures r.fs == LegacyBlenderRenderValidate(settings, h).fs
    ensures r.check.Pass? <==>
      LegacySettingsAcceptable(settings, h) && PositiveInt(settings, "cycles_num_chunks") && PositiveInt(settings, "cycles_chunk")
    ensures (LegacySettingsAcceptable(settings, h) && Has(settings, "cycles_num_chunks", IntSetting) &&
      AsInt(settings["cycles_num_chunks"]) < 1) ==> r.check == Fail(PositiveMessage("cycles_num_chunks"))
    ensures (LegacySettingsAcceptable(settings, h) && PositiveInt(settings, "cycles_num_chunks") &&
      Has(settings, "cycles_chunk", IntSetting) && AsInt(settings["cycles_chunk"]) < 1) ==> r.check == Fail(PositiveMessage("cycles_chunk"))
  {
    var base := LegacyBlenderRenderValidate(settings, h);
    if !base.check.Pass? then base
    else
      var s := base.settings;
      assert "cycles_num_chunks" != "blender_cmd" && "cycles_chunk" != "blender_cmd";
      assert forall k :: k in settings && k != "blender_cmd" ==> k in s && s[k] == settings[k];
      var n := Setting(s, "cycles_num_chunks", true, IntSetting);
      if n.error.Some? then Validated(Fail(n.error.value), s, base.fs)
      else if AsInt(n.value) < 1 then Validated(Fail(PositiveMessage("cycles_num_chunks")), s, base.fs)
      else
        var c := Setting(s, "cycles_chunk", true, IntSetting);
        if c.error.Some? then Validated(Fail(c.error.value), s, base.fs)
        else if AsInt(c.value) < 1 then Validated(Fail(PositiveMessage("cycles_chunk")), s, base.fs)
        else base
  }

  /** MergeProgressiveRendersCommand.validate of runner.py: the commands.py checks without the PID file. */
  function LegacyMergeValidate(settings: Settings, h: Host): (r: Validated)
    ensures r.fs == h.fs
    ensures r.check.Pass? <==> MergeSettingsAcceptable(settings, h.fs)
  {
    MergeProgressiveRendersValidate(settings, h.(pidFile := []))
  }

  /** As in commands.py, a double quote in input1 is the failure reported once blender_cmd is usable. */
  lemma LegacyInput1QuoteFails(settings: Settings, h: Host)
    requires BlenderCmdUsable(settings, h.fs) && Has(settings, "input1", StrSetting) && '"' in settings["input1"].s
    ensures LegacyMergeValidate(settings, h).check == Fail(QuoteMessage(settings["input1"].s))
  {
    Input1QuoteFails(settings, h.(pidFile := []));
  }

  /** The validate rule of each command class runner.py registers. */
  function LegacyValidate(kind: CommandKind, settings: Settings, h: Host): (r: Validated)
    ensures kind !in {BlenderRender, BlenderRenderProgressive} ==> r.fs == h.fs
    ensures kind in {BlenderRender, BlenderRenderProgressive} ==> r.fs == h.fs || r.fs == OutputFs(settings, h)
  {
    match kind
    case Echo => Validated(EchoValidate(settings), settings, h.fs)
    case Sleep => Validated(SleepValidate(settings), settings, h.fs)
    case MoveOutOfWay => Validated(MoveOutOfWayValidate(settings), settings, h.fs)
    case Exec => Validated(LegacyExecValidate(settings), settings, h.fs)
    case BlenderRender => LegacyBlenderRenderValidate(settings, h)
    case BlenderRenderProgressive => LegacyProgressiveValidate(settings, h)
    case MergeProgressiveRenders => LegacyMergeValidate(settings, h)
    case _ => Validated(Pass, settings, h.fs)
  }

  // ---------------------------------------------------------------- the Blender command line

  /** _build_blender_cmd of runner.py: `--factory-startup` first, and no `--python-expr`. */
  function LegacyBuildBlenderCmd(settings: Settings): (cmd: seq<Value>)
    requires Executable(settings)
    ensures var n := |settings["blender_cmd"].items|;
      |cmd| >= n + 5 && (|cmd| - n - 5) % 2 == 0 &&
      cmd[..n] == settings["blender_cmd"].items && cmd[n] == StrV("--factory-startup") &&
      cmd[n + 1..n + 4] == FixedArgs && cmd[n + 4] == settings["filepath"]
  {
    settings["blender_cmd"].items + [StrV("--factory-startup")] + FixedArgs + [settings["filepath"]] + OptionArgs(settings, RenderOptions[1..])
  }

  /**
   * After the fixed part, the older command line holds exactly the truthy render_output,
   * format and frames settings after their flags, in that order, and never a Python expression.
   */
  lemma LegacyCmdOptions(settings: Settings, k: nat)
    requires Executable(settings) && 1 <= k < |RenderOptions|
    ensures var n := |settings["blender_cmd"].items|;
      var tail := LegacyBuildBlenderCmd(settings)[n + 5..];
      |tail| % 2 == 0 &&
      ValueAfter(tail, RenderOptions[k].flag) ==
        (if Truthy(Get(settings, RenderOptions[k].key)) then Some(settings[RenderOptions[k].key]) else None) &&
      ValueAfter(tail, "--python-expr").None? &&
      FlagsOf(tail) == TruthyFlags(settings, RenderOptions[1..])
  {
    var n := |settings["blender_cmd"].items|;
    var opts := RenderOptions[1..];
    assert LegacyBuildBlenderCmd(settings)[n + 5..] == OptionArgs(settings, opts);
    assert DistinctFlags(opts);
    assert opts[k - 1] == RenderOptions[k];
    ValueAfterOption(settings, opts, k - 1);
    ValueAfterAbsent(settings, opts, "--python-expr");
    FlagsOfOptionArgs(settings, opts);
  }

  /** _build_blender_cmd of runner.py's BlenderRenderProgressiveCommand. */
  function LegacyProgressiveCmd(settings: Settings): (cmd: seq<Value>)
    requires Executable(settings) && Has(settings, "cycles_num_chunks", IntSetting) && Has(settings, "cycles_chunk", IntSetting)
    ensures LegacyBuildBlenderCmd(settings) <= cmd && |cmd| == |LegacyBuildBlenderCmd(settings)| + 5
    ensures cmd[|cmd| - 5] == StrV("--") && cmd[|cmd| - 4] == StrV("--cycles-resumable-num-chunks") &&
      cmd[|cmd| - 2] == StrV("--cycles-resumable-current-chunk") && cmd[|cmd| - 3].StrV? && cmd[|cmd| - 1].StrV?
    ensures settings["cycles_num_chunks"].IntV? ==> ParseInt(cmd[|cmd| - 3].s) == Some(settings["cycles_num_chunks"].i)
    ensures settings["cycles_chunk"].IntV? ==> ParseInt(cmd[|cmd| - 1].s) == Some(settings["cycles_chunk"].i)
  {
    LegacyBuildBlenderCmd(settings) + ChunkArgs(settings)
  }

  // ---------------------------------------------------------------- process_line

  /** process_line of runner.py's BlenderRenderCommand: no synchronizing filter, no saved files, and a bare `> ` prefix. */
  function LegacyProcessLine(line: string): (r: Result<LineEffects>)
    ensures r.Ok? ==> r.value.log == Some("> " + line) && r.value.produced == []
    ensures r.Raise? <==> (ParseRenderLine(line).Some? && ParseRenderLine(line).value.remainingSec.Some? &&
      (ParseRenderLine(line).value.timeSec.None? || ParseRenderLine(line).value.status.None?))
  {
    var warn := if Contains(line, "Warning: Unable to open") || PathNotFound(line, 0) then [LineActivity(line)] else [];
    var info := ParseRenderLine(line);
    if info.None? then Ok(LineEffects(warn, [], Some("> " + line)))
    else if info.value.remainingSec.None? then Ok(LineEffects(warn + [LineActivity(line)], [], Some("> " + line)))
    else if info.value.timeSec.None? then Raise(KeyError("time_sec"))
    else if info.value.status.None? then Raise(KeyError("status"))
    else Ok(LineEffects(warn + [ProgressActivity(info.value)], [], Some("> " + line)))
  }

  /**
   * On a line that is not a synchronizing line, both process_line versions send the same
   * activity updates and fail alike; only the log prefix differs.
   */
  lemma LegacyProcessLineAgrees(seen: bool, pid: int, line: string)
    requires !IsSyncLine(line)
    ensures var before := LegacyProcessLine(line); var now := ProcessLineSpec(seen, pid, line).0;
      (before.Raise? <==> now.Raise?) && (before.Raise? ==> before.exc == now.exc) &&
      (before.Ok? ==> (before.value.activities == now.value.activities &&
        now.value.log == Some("pid=" + IntToString(pid) + " " + before.value.log.value)))
  {
    var pidText := "pid=" + IntToString(pid);
    assert pidText + " > " + line == pidText + " " + ("> " + line);
  }

  // ---------------------------------------------------------------- MoveOutOfWay with `-N`

  /** The older timestamped name: '-' and the exact, unaltered ISO modification time. */
  function LegacyTimestampedPath(p: Path, m: MTime): (r: Path)
    ensures r.dir == p.dir && r != p
    ensures |r.name| > |p.name| && r.name[..|p.name| + 1] == p.name + "-" && r.name[|p.name| + 1..] == m.exact
  {
    WithName(p, p.name + "-" + m.exact)
  }

  /**
   * The two timestamp rules name different backups whenever the exact time has
   * a ':', as every isoformat() text does: runner.py keeps the colons.
   */
  lemma LegacyStampKeepsColons(p: Path, m: MTime)
    requires ':' in m.exact
    ensures LegacyTimestampedPath(p, m) != FileCommands.TimestampedPath(p, m)
  {
    var a, b := LegacyTimestampedPath(p, m), FileCommands.TimestampedPath(p, m);
    assert ':' in a.name[|p.name| + 1..];
    assert ':' !in b.name[|p.name| + 1..];
  }

  /** name.split('-')[-1]: the text after the last '-', or the whole name. */
  function LastDashPart(name: string): (r: string)
    ensures '-' !in r
    ensures '-' !in name ==> r == name
  {
    match LastIndexIn(name, '-', 0, |name|)
    case None => name
    case Some(j) => name[j + 1..]
  }

  /** int() of the last '-' part, when it parses; max(max_nr, suffix) ignores what is below 0. */
  function LegacyNumber(name: string): Option<nat>
  {
    match ParseInt(LastDashPart(name))
    case None => None
    case Some(v) => if v >= 0 then Some(v) else None
  }

  /** With its last '-' at j, a name's last '-' part is what follows j. */
  lemma LastDashPartAt(name: string, j: nat)
    requires j < |name| && name[j] == '-'
    requires forall k :: j < k < |name| ==> name[k] != '-'
    ensures LastDashPart(name) == name[j + 1..]
  {
    assert LastIndexIn(name, '-', 0, |name|) == Some(j);
  }

  lemma LegacyNumberOf(base: string, n: nat)
    ensures LegacyNumber(base + "-" + NatToString(n)) == Some(n)
  {
    var digits := NatToString(n);
    var name := base + "-" + digits;
    var j := |base|;
    assert name[j + 1..] == digits;
    forall k | j < k < |name| ensures name[k] != '-' {
      assert name[k] == digits[k - j - 1];
      assert IsDigit(digits[k - j - 1]);
    }
    LastDashPartAt(name, j);
    ParseIntOfIntToString(n);
  }

  /** What dst.parent.glob(dst.name + '*') yields: dst itself and every sibling whose name extends it. */
  function LegacyCandidates(fs: FsMap, d: Path): set<Path>
  {
    set q | q in fs && q.dir == d.dir && StartsWith(q.name, d.name)
  }

  function LegacySuffixes(ps: set<Path>): set<nat>
  {
    set q | q in ps && LegacyNumber(q.name).Some? :: LegacyNumber(q.name).value
  }

  lemma LegacySuffixesAdd(done: set<Path>, q: Path)
    ensures LegacySuffixes(done + {q}) == LegacySuffixes(done) + (if LegacyNumber(q.name).Some? then {LegacyNumber(q.name).value} else {})
  {
  }

  lemma InLegacySuffixes(ps: set<Path>, q: Path)
    requires q in ps && LegacyNumber(q.name).Some?
    ensures LegacyNumber(q.name).value in LegacySuffixes(ps)
  {
  }

  /** The path the older collision rule picks: `-` and one more than the largest number in use. */
  ghost function LegacyUniqueTarget(fs: FsMap, d: Path): (r: Path)
    ensures r.dir == d.dir && r !in fs
  {
    var n := FileCommands.SetMax(LegacySuffixes(LegacyCandidates(fs, d))) + 1;
    LegacyNumberedFresh(fs, d, n);
    LegacyNumbered(d, n)
  }

  /** The path named `<d.name>-<n>` beside d. */
  function LegacyNumbered(d: Path, n: nat): (q: Path)
    ensures q.dir == d.dir && StartsWith(q.name, d.name) && LegacyNumber(q.name) == Some(n)
  {
    LegacyTargetName(d.name, n);
    WithName(d, d.name + "-" + NatToString(n))
  }

  /** A path numbered one above every number in use is not among the candidates. */
  lemma AboveMaxNotCandidate(fs: FsMap, d: Path, t: Path, n: nat)
    requires n == FileCommands.SetMax(LegacySuffixes(LegacyCandidates(fs, d))) + 1 && LegacyNumber(t.name) == Some(n)
    requires t.dir == d.dir && StartsWith(t.name, d.name)
    ensures t !in fs
  {
    var cands := LegacyCandidates(fs, d);
    if t in fs {
      assert t in cands;
      InLegacySuffixes(cands, t);
      assert false;
    }
  }

  /** A name built by the older collision rule extends the base name and reads back its number. */
  lemma LegacyTargetName(base: string, n: nat)
    ensures StartsWith(base + "-" + NatToString(n), base)
    ensures LegacyNumber(base + "-" + NatToString(n)) == Some(n)
  {
    LegacyNumberOf(base, n);
    assert (base + "-" + NatToString(n))[..|base|] == base;
  }

  lemma LegacyNumberedFresh(fs: FsMap, d: Path, n: nat)
    requires n == FileCommands.SetMax(LegacySuffixes(LegacyCandidates(fs, d))) + 1
    ensures LegacyNumbered(d, n) !in fs
  {
    AboveMaxNotCandidate(fs, d, LegacyNumbered(d, n), n);
  }

  lemma LegacyUniqueTargetOf(fs: FsMap, d: Path, seen: set<nat>, maxNr: nat)
    requires seen == LegacySuffixes(LegacyCandidates(fs, d)) && maxNr == FileCommands.SetMax(seen)
    ensures LegacyUniqueTarget(fs, d) == LegacyNumbered(d, maxNr + 1)
  {
  }

  /** The suffix loop of runner.py's MoveOutOfWayCommand.execute. */
  method LegacyUniquePath(fs: FsMap, d: Path) returns (r: Path)
    ensures r == LegacyUniqueTarget(fs, d)
  {
    var todo := LegacyCandidates(fs, d);
    ghost var all := todo;
    ghost var done: set<Path> := {};
    ghost var seen: set<nat> := {};
    var maxNr: nat := 0;
    while todo != {}
      invariant todo + done == all && todo !! done
      invariant seen == LegacySuffixes(done)
      invariant FileCommands.RunningMax(seen, maxNr)
      decreases |todo|
    {
      var q :| q in todo;
      var m := LegacyNumber(q.name);
      LegacySuffixesAdd(done, q);
      FileCommands.RunningMaxStep(seen, maxNr, m);
      FileCommands.MoveOne(todo, done, all, q);
      if m.Some? && m.value > maxNr {
        maxNr := m.value;
      }
      seen := seen + (if m.Some? then {m.value} else {});
      todo, done := todo - {q}, done + {q};
    }
    assert done == all;
    FileCommands.MaxIsSetMax(seen, maxNr);
    LegacyUniqueTargetOf(fs, d, seen, maxNr);
    r := LegacyNumbered(d, maxNr + 1);
  }

  /** Where the older command moves an existing path: its timestamped name, suffixed when taken. */
  ghost function LegacyBackupPath(fs: FsMap, p: Path): (r: Path)
    requires p in fs
    ensures r.dir == p.dir && r !in fs && r != p
  {
    var t := LegacyTimestampedPath(p, fs[p].mtime);
    if t in fs then LegacyUniqueTarget(fs, t) else t
  }

  /** MoveOutOfWayCommand.execute of runner.py. */
  method LegacyMoveOutOfWay(fs: FileSystem, commandName: string, src: Path) returns (r: Result<()>, logs: seq<string>)
    modifies fs
    ensures src !in old(fs.entries) ==> (r.Ok? && fs.entries == old(fs.entries) &&
      logs == [commandName + ": Render output path " + PathText(src) + " does not exist, not moving out of way"])
    ensures src in old(fs.entries) ==>
      var dst := LegacyBackupPath(old(fs.entries), src);
      (r, fs.entries) == RenameOutcome(old(fs.entries), src, dst) &&
      logs == [commandName + ": Moving " + PathText(src) + " to " + PathText(dst)]
  {
    if src !in fs.entries {
      return Ok(()), [commandName + ": Render output path " + PathText(src) + " does not exist, not moving out of way"];
    }
    var dst := LegacyTimestampedPath(src, fs.entries[src].mtime);
    if dst in fs.entries {
      dst := LegacyUniquePath(fs.entries, dst);
    }
    logs := [commandName + ": Moving " + PathText(src) + " to " + PathText(dst)];
    r := fs.Rename(src, dst);
  }

  // ---------------------------------------------------------------- the task runner

  /** A task as the Manager sends it: its id and its list of command dicts. */
  datatype Task = Task(id: string, commands: seq<Value>)

  /** The text %r gives for the values a ValueError message can carry. */
  function ValueRepr(v: Value): string
  {
    match v
    case NoneV => "None"
    case BoolV(b) => if b then "True" else "False"
    case IntV(i) => IntToString(i)
    case StrV(s) => Repr(s)
    case FloatV(_) => "<float>"
    case ListV(_) => "<list>"
    case DictV(_) => "<dict>"
  }

  function CommandError(idx: nat, taskId: string, what: string): Exception
  {
    Exception("ValueError", "Command " + NatToString(idx) + " of task " + taskId + " has " + what)
  }

  /**
   * The checks TaskRunner.execute makes on command `idx` before constructing its
   * handler: the handler class and the settings it then runs with, or the exception.
   */
  function Resolve(taskId: string, idx: nat, info: Value, handlers: map<string, Handler>): (r: Result<(Handler, Settings)>)
    ensures r.Ok? <==> (info.DictV? && Get(info.entries, "name").StrV? && Get(info.entries, "name").s != [] &&
      Get(info.entries, "name").s in handlers && Get(info.entries, "settings").DictV?)
    ensures r.Ok? ==> r.value == (handlers[info.entries["name"].s], info.entries["settings"].entries)
    ensures !info.DictV? ==> r.Raise? && r.exc.kind == "AttributeError"
    ensures info.DictV? && !Truthy(Get(info.entries, "name")) ==> r == Raise(CommandError(idx, taskId, "no name"))
    ensures info.DictV? && Truthy(Get(info.entries, "name")) && !Get(info.entries, "settings").DictV? ==>
      r == Raise(CommandError(idx, taskId, "malformed settings " + ValueRepr(Get(info.entries, "settings"))))
    ensures (info.DictV? && Truthy(Get(info.entries, "name")) && Get(info.entries, "settings").DictV? &&
             (Get(info.entries, "name").ListV? || Get(info.entries, "name").DictV?)) ==>
      r.Raise? && r.exc.kind == "TypeError"
    ensures (info.DictV? && Truthy(Get(info.entries, "name")) && Get(info.entries, "settings").DictV? &&
             !Get(info.entries, "name").ListV? && !Get(info.entries, "name").DictV? &&
             !(Get(info.entries, "name").StrV? && Get(info.entries, "name").s in handlers)) ==>
      r == Raise(CommandError(idx, taskId, "unknown command name " + ValueRepr(Get(info.entries, "name"))))
  {
    if !info.DictV? then Raise(Exception("AttributeError", "'" + TypeName(TypeOf(info)) + "' object has no attribute 'get'"))
    else
      var name := Get(info.entries, "name");
      var settings := Get(info.entries, "settings");
      if !Truthy(name) then Raise(CommandError(idx, taskId, "no name"))
      else if !settings.DictV? then Raise(CommandError(idx, taskId, "malformed settings " + ValueRepr(settings)))
      else if name.ListV? || name.DictV? then Raise(Exception("TypeError", "unhashable type: '" + TypeName(TypeOf(name)) + "'"))
      else if !name.StrV? || name.s !in handlers then Raise(CommandError(idx, taskId, "unknown command name " + ValueRepr(name)))
      else Ok((handlers[name.s], settings.entries))
  }

  /** What cmd.run(settings) gives for command `idx`: I/O, so an input of the model. */
  type RunOracle = (nat, Handler, Settings) -> RunResult

  /** Command `idx` is well formed, registered, and its run returns True. */
  predicate Succeeds(t: Task, handlers: map<string, Handler>, run: RunOracle, idx: nat)
    requires idx < |t.commands|
  {
    var h := Resolve(t.id, idx, t.commands[idx], handlers);
    h.Ok? && run(idx, h.value.0, h.value.1) == Returned(true)
  }

  /** TaskRunner.execute's result and the last_command_idx and current_command it leaves. */
  datatype RunnerState = RunnerState(result: Result<bool>, lastCommandIdx: int, currentCommand: Option<Handler>)

  /** How command `idx` ends a task that got that far without success: the exception, or False. */
  function Stop(t: Task, handlers: map<string, Handler>, run: RunOracle, idx: nat): (r: Result<bool>)
    requires idx < |t.commands|
    ensures r != Ok(true) || Succeeds(t, handlers, run, idx)
  {
    match Resolve(t.id, idx, t.commands[idx], handlers)
    case Raise(ex) => Raise(ex)
    case Ok(hs) =>
      match run(idx, hs.0, hs.1)
      case Propagated(ex) => Raise(ex)
      case Returned(ok) => Ok(ok)
  }

  /** The loop of TaskRunner.execute from command `i` on. */
  function RunFrom(t: Task, handlers: map<string, Handler>, run: RunOracle, i: nat, last: int, current: Option<Handler>): RunnerState
    requires i <= |t.commands|
    decreases |t.commands| - i
  {
    if i == |t.commands| then RunnerState(Ok(true), last, current)
    else
      var r := Resolve(t.id, i, t.commands[i], handlers);
      var current' := if r.Ok? then Some(r.value.0) else current;
      if Succeeds(t, handlers, run, i) then RunFrom(t, handlers, run, i + 1, i, current')
      else RunnerState(Stop(t, handlers, run, i), i, current')
  }

  /** The task runs to the end (True) exactly when every command succeeds. */
  lemma {:induction false} RunFromSucceeds(t: Task, handlers: map<string, Handler>, run: RunOracle, i: nat, last: int, current: Option<Handler>)
    requires i <= |t.commands|
    ensures RunFrom(t, handlers, run, i, last, current).result == Ok(true) <==>
      forall k :: i <= k < |t.commands| ==> Succeeds(t, handlers, run, k)
    decreases |t.commands| - i
  {
    if i < |t.commands| {
      var r := Resolve(t.id, i, t.commands[i], handlers);
      var current' := if r.Ok? then Some(r.value.0) else current;
      RunFromSucceeds(t, handlers, run, i + 1, i, current');
      if !Succeeds(t, handlers, run, i) {
        assert RunFrom(t, handlers, run, i, last, current).result == Stop(t, handlers, run, i);
      }
    }
  }

  /**
   * A task that does not run to the end stops at its first unsuccessful command:
   * every earlier command succeeded, last_command_idx points at it, and the result
   * is that command's exception or False.
   */
  lemma {:induction false} RunFromStops(t: Task, handlers: map<string, Handler>, run: RunOracle, i: nat, last: int, current: Option<Handler>)
    requires i <= |t.commands|
    ensures var s := RunFrom(t, handlers, run, i, last, current);
      s.result != Ok(true) ==>
        i <= s.lastCommandIdx < |t.commands| &&
        (forall k :: i <= k < s.lastCommandIdx ==> Succeeds(t, handlers, run, k)) &&
        !Succeeds(t, handlers, run, s.lastCommandIdx) &&
        s.result == Stop(t, handlers, run, s.lastCommandIdx)
    decreases |t.commands| - i
  {
    if i < |t.commands| {
      var r := Resolve(t.id, i, t.commands[i], handlers);
      var current' := if r.Ok? then Some(r.value.0) else current;
      RunFromStops(t, handlers, run, i + 1, i, current');
    }
  }

  /** After a task that ran to the end, last_command_idx is the last index and current_command the last handler. */
  lemma {:induction false} RunFromLast(t: Task, handlers: map<string, Handler>, run: RunOracle, i: nat, last: int, current: Option<Handler>)
    requires i < |t.commands|
    ensures var s := RunFrom(t, handlers, run, i, last, current);
      s.result == Ok(true) ==>
        s.lastCommandIdx == |t.commands| - 1 && Resolve(t.id, |t.commands| - 1, t.commands[|t.commands| - 1], handlers).Ok? &&
        s.currentCommand == Some(Resolve(t.id, |t.commands| - 1, t.commands[|t.commands| - 1], handlers).value.0)
    decreases |t.commands| - i
  {
    var r := Resolve(t.id, i, t.commands[i], handlers);
    var current' := if r.Ok? then Some(r.value.0) else current;
    if i + 1 < |t.commands| {
      RunFromLast(t, handlers, run, i + 1, i, current');
    }
  }

  /**
   * The current_command a run from command `i` leaves, which abort_current_task()
   * aborts: the handler of command last_command_idx when that command resolved,
   * otherwise that of the command before it, otherwise (nothing resolved in
   * this run) the handler the run began with.
   */
  lemma {:induction false} RunFromCurrent(t: Task, handlers: map<string, Handler>, run: RunOracle, i: nat, last: int, current: Option<Handler>)
    requires i < |t.commands|
    ensures var s := RunFrom(t, handlers, run, i, last, current);
      var k := s.lastCommandIdx;
      i <= k < |t.commands| &&
      (i < k ==> Resolve(t.id, k - 1, t.commands[k - 1], handlers).Ok?) &&
      (Resolve(t.id, k, t.commands[k], handlers).Ok? ==>
        s.currentCommand == Some(Resolve(t.id, k, t.commands[k], handlers).value.0)) &&
      (Resolve(t.id, k, t.commands[k], handlers).Raise? ==>
        s.currentCommand == if k == i then current else Some(Resolve(t.id, k - 1, t.commands[k - 1], handlers).value.0))
    decreases |t.commands| - i
  {
    var r := Resolve(t.id, i, t.commands[i], handlers);
    var current' := if r.Ok? then Some(r.value.0) else current;
    if Succeeds(t, handlers, run, i) && i + 1 < |t.commands| {
      RunFromCurrent(t, handlers, run, i + 1, i, current');
    }
  }

  /** The task runner: the index of the command last started and the handler last constructed. */
  class TaskRunner {
    var lastCommandIdx: int
    var currentCommand: Option<Handler>

    constructor ()
      ensures lastCommandIdx == 0 && currentCommand == None
    {
      lastCommandIdx := 0;
      currentCommand := None;
    }

    /** TaskRunner.execute(task): True iff the entire task ran successfully. */
    method Execute(t: Task, handlers: map<string, Handler>, run: RunOracle) returns (r: Result<bool>)
      modifies this
      ensures RunnerState(r, lastCommandIdx, currentCommand) == RunFrom(t, handlers, run, 0, old(lastCommandIdx), old(currentCommand))
    {
      var i := 0;
      while i < |t.commands|
        invariant 0 <= i <= |t.commands|
        invariant RunFrom(t, handlers, run, i, lastCommandIdx, currentCommand) ==
          RunFrom(t, handlers, run, 0, old(lastCommandIdx), old(currentCommand))
        decreases |t.commands| - i
      {
        lastCommandIdx := i;
        var resolved := Resolve(t.id, i, t.commands[i], handlers);
        if resolved.Raise? {
          return Raise(resolved.exc);
        }
        var (h, settings) := resolved.value;
        currentCommand := Some(h);
        var outcome := run(i, h, settings);
        if outcome.Propagated? {
          return Raise(outcome.exc);
        }
        if !outcome.success {
          return Ok(false);
        }
        i := i + 1;
      }
      r := Ok(true);
    }

    /** abort_current_task: the handler whose abort() is awaited, or None when no command was started. */
    method AbortCurrentTask() returns (aborted: Option<Handler>)
      ensures aborted == currentCommand
    {
      aborted := currentCommand;
    }
  }
}
