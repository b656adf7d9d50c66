// The Blender render commands of commands.py: the command line they start
// Blender with, the parser for Blender's progress lines and the per-line
// processing that swallows all but the first "synchronizing" line.
module Blender {
  import opened Wrappers
  import opened Text
  import opened Values
  import opened Commands

  // ---------------------------------------------------------------- the command line

  /** An optional setting and the option that passes it to Blender. */
  datatype RenderOption = RenderOption(key: string, flag: string)

  /** The optional settings, in the order _build_blender_cmd appends them. */
  const RenderOptions: seq<RenderOption> := [
    RenderOption("python_expr", "--python-expr"),
    RenderOption("render_output", "--render-output"),
    RenderOption("format", "--render-format"),
    RenderOption("frames", "--render-frame")]

  const FixedArgs: seq<Value> := [StrV("--enable-autoexec"), StrV("-noaudio"), StrV("--background")]

  /** Settings as validation leaves them: blender_cmd is a list and filepath is present. */
  predicate Executable(settings: Settings)
  {
    "blender_cmd" in settings && settings["blender_cmd"].ListV? && "filepath" in settings
  }

  /** The option/value pairs for the truthy settings among `opts`, flattened. */
  function OptionArgs(settings: Settings, opts: seq<RenderOption>): (args: seq<Value>)
    ensures |args| % 2 == 0 && |args| <= 2 * |opts|
  {
    if opts == [] then []
    else
      (if Truthy(Get(settings, opts[0].key)) then [StrV(opts[0].flag), settings[opts[0].key]] else [])
      + OptionArgs(settings, opts[1..])
  }

  /** _build_blender_cmd(settings) of BlenderRenderCommand. */
  function BuildBlenderCmd(settings: Settings): (cmd: seq<Value>)
    requires Executable(settings)
    ensures var n := |settings["blender_cmd"].items|;
      |cmd| >= n + 4 && (|cmd| - n) % 2 == 0 &&
      cmd[..n] == settings["blender_cmd"].items && cmd[n..n + 3] == FixedArgs && cmd[n + 3] == settings["filepath"]
  {
    settings["blender_cmd"].items + FixedArgs + [settings["filepath"]] + OptionArgs(settings, RenderOptions)
  }

  /** The value following `flag` in a list of option/value pairs. */
  function ValueAfter(pairs: seq<Value>, flag: string): Option<Value>
    requires |pairs| % 2 == 0
  {
    if pairs == [] then None else if pairs[0] == StrV(flag) then Some(pairs[1]) else ValueAfter(pairs[2..], flag)
  }

  /** The flags of a list of option/value pairs, in order. */
  function FlagsOf(pairs: seq<Value>): seq<Value>
    requires |pairs| % 2 == 0
  {
    if pairs == [] then [] else [pairs[0]] + FlagsOf(pairs[2..])
  }

  /** The flags of the truthy options among `opts`, in order. */
  function TruthyFlags(settings: Settings, opts: seq<RenderOption>): seq<Value>
  {
    if opts == [] then []
    else (if Truthy(Get(settings, opts[0].key)) then [StrV(opts[0].flag)] else []) + TruthyFlags(settings, opts[1..])
  }

  predicate DistinctFlags(opts: seq<RenderOption>)
  {
    forall i, j :: 0 <= i < j < |opts| ==> opts[i].flag != opts[j].flag
  }

  lemma {:induction false} ValueAfterAbsent(settings: Settings, opts: seq<RenderOption>, flag: string)
    requires forall i :: 0 <= i < |opts| ==> opts[i].flag != flag
    ensures ValueAfter(OptionArgs(settings, opts), flag).None?
  {
    if opts != [] {
      ValueAfterAbsent(settings, opts[1..], flag);
      var args := OptionArgs(settings, opts);
      if Truthy(Get(settings, opts[0].key)) {
        assert args[2..] == OptionArgs(settings, opts[1..]);
      } else {
        assert args == OptionArgs(settings, opts[1..]);
      }
    }
  }

  lemma {:induction false} ValueAfterOption(settings: Settings, opts: seq<RenderOption>, k: nat)
    requires k < |opts| && DistinctFlags(opts)
    ensures ValueAfter(OptionArgs(settings, opts), opts[k].flag) ==
      if Truthy(Get(settings, opts[k].key)) then Some(settings[opts[k].key]) else None
  {
    var args := OptionArgs(settings, opts);
    var rest := OptionArgs(settings, opts[1..]);
    var truthy0 := Truthy(Get(settings, opts[0].key));
    if truthy0 { assert args[2..] == rest; } else { assert args == rest; }
    if k == 0 {
      if !truthy0 { ValueAfterAbsent(settings, opts[1..], opts[0].flag); }
    } else {
      ValueAfterOption(settings, opts[1..], k - 1);
    }
  }

  lemma {:induction false} FlagsOfOptionArgs(settings: Settings, opts: seq<RenderOption>)
    ensures FlagsOf(OptionArgs(settings, opts)) == TruthyFlags(settings, opts)
  {
    if opts != [] {
      FlagsOfOptionArgs(settings, opts[1..]);
      var args := OptionArgs(settings, opts);
      if Truthy(Get(settings, opts[0].key)) {
        assert args[0] == StrV(opts[0].flag);
        assert args[2..] == OptionArgs(settings, opts[1..]);
      } else {
        assert args == OptionArgs(settings, opts[1..]);
      }
    }
  }

  /**
   * After the fixed part, the command line holds exactly the truthy optional
   * settings, each right after its own flag, in the order of RenderOptions.
   */
  lemma BlenderCmdOptions(settings: Settings, k: nat)
    requires Executable(settings) && k < |RenderOptions|
    ensures var n := |settings["blender_cmd"].items|;
      var cmd := BuildBlenderCmd(settings);
      ValueAfter(cmd[n + 4..], RenderOptions[k].flag) ==
        (if Truthy(Get(settings, RenderOptions[k].key)) then Some(settings[RenderOptions[k].key]) else None) &&
      FlagsOf(cmd[n + 4..]) == TruthyFlags(settings, RenderOptions)
  {
    var n := |settings["blender_cmd"].items|;
    var cmd := BuildBlenderCmd(settings);
    assert cmd[n + 4..] == OptionArgs(settings, RenderOptions);
    ValueAfterOption(settings, RenderOptions, k);
    FlagsOfOptionArgs(settings, RenderOptions);
  }

  /** Settings that validation accepted are ready for the command line. */
  lemma ValidatedIsExecutable(settings: Settings, h: Host)
    requires BlenderRenderValidate(settings, h).check.Pass?
    ensures Executable(BlenderRenderValidate(settings, h).settings)
  {
  }

  /** str(v) for an int setting; a bool prints as True or False. */
  function IntText(v: Value): string
    requires IsInstance(v, IntType)
  {
    if v.BoolV? then (if v.b then "True" else "False") else IntToString(v.i)
  }

  /** str() of an int setting reads back as that int. */
  lemma IntTextParses(v: Value)
    requires IsInstance(v, IntType)
    ensures v.IntV? ==> ParseInt(IntText(v)) == Some(v.i)
  {
    if v.IntV? { ParseIntOfIntToString(v.i); }
  }

  /** The arguments BlenderRenderProgressiveCommand appends: `--` and the two chunk options. */
  function ChunkArgs(settings: Settings): (args: seq<Value>)
    requires Has(settings, "cycles_num_chunks", IntSetting) && Has(settings, "cycles_chunk", IntSetting)
    ensures |args| == 5 && args[0] == StrV("--") && args[1] == StrV("--cycles-resumable-num-chunks") &&
      args[3] == StrV("--cycles-resumable-current-chunk") && args[2].StrV? && args[4].StrV?
    ensures settings["cycles_num_chunks"].IntV? ==> ParseInt(args[2].s) == Some(settings["cycles_num_chunks"].i)
    ensures settings["cycles_chunk"].IntV? ==> ParseInt(args[4].s) == Some(settings["cycles_chunk"].i)
  {
    IntTextParses(settings["cycles_num_chunks"]);
    IntTextParses(settings["cycles_chunk"]);
    [StrV("--"),
     StrV("--cycles-resumable-num-chunks"), StrV(IntText(settings["cycles_num_chunks"])),
     StrV("--cycles-resumable-current-chunk"), StrV(IntText(settings["cycles_chunk"]))]
  }

  /** _build_blender_cmd(settings) of BlenderRenderProgressiveCommand: the plain command line, then the chunk arguments. */
  function BuildProgressiveCmd(settings: Settings): (cmd: seq<Value>)
    requires Executable(settings) && Has(settings, "cycles_num_chunks", IntSetting) && Has(settings, "cycles_chunk", IntSetting)
    ensures BuildBlenderCmd(settings) <= cmd && |cmd| == |BuildBlenderCmd(settings)| + 5
    ensures cmd[|cmd| - 5] == StrV("--") && cmd[|cmd| - 4] == StrV("--cycles-resumable-num-chunks") &&
      cmd[|cmd| - 2] == StrV("--cycles-resumable-current-chunk") && cmd[|cmd| - 3].StrV? && cmd[|cmd| - 1].StrV?
    ensures settings["cycles_num_chunks"].IntV? ==> ParseInt(cmd[|cmd| - 3].s) == Some(settings["cycles_num_chunks"].i)
    ensures settings["cycles_chunk"].IntV? ==> ParseInt(cmd[|cmd| - 1].s) == Some(settings["cycles_chunk"].i)
  {
    BuildBlenderCmd(settings) + ChunkArgs(settings)
  }

  /** The arguments of the CLI-arguments test: frames and format given, python_expr and render_output not. */
  lemma BuildBlenderCmdExample(exe: string, filepath: string)
    ensures BuildBlenderCmd(map[
      "blender_cmd" := ListV([StrV(exe), StrV("--with"), StrV("--cli=args for CLI")]),
      "chunk_size" := IntV(100), "frames" := StrV("1..2"), "format" := StrV("JPEG"),
      "filepath" := StrV(filepath)]) ==
      [StrV(exe), StrV("--with"), StrV("--cli=args for CLI"),
       StrV("--enable-autoexec"), StrV("-noaudio"), StrV("--background"), StrV(filepath),
       StrV("--render-format"), StrV("JPEG"), StrV("--render-frame"), StrV("1..2")]
  {
    var st := map[
      "blender_cmd" := ListV([StrV(exe), StrV("--with"), StrV("--cli=args for CLI")]),
      "chunk_size" := IntV(100), "frames" := StrV("1..2"), "format" := StrV("JPEG"),
      "filepath" := StrV(filepath)];
    assert "python_expr" !in st && "render_output" !in st;
    assert OptionArgs(st, RenderOptions[4..]) == [];
    assert OptionArgs(st, RenderOptions[3..]) == [StrV("--render-frame"), StrV("1..2")];
    assert OptionArgs(st, RenderOptions[2..]) == [StrV("--render-format"), StrV("JPEG"), StrV("--render-frame"), StrV("1..2")];
    assert OptionArgs(st, RenderOptions[1..]) == OptionArgs(st, RenderOptions[2..]);
    assert OptionArgs(st, RenderOptions) == OptionArgs(st, RenderOptions[1..]);
  }

  // ---------------------------------------------------------------- progress lines

  /** The end of the longest run of digits starting at i. */
  function DigitEnd(s: string, i: nat): (e: nat)
    requires i <= |s|
    ensures i <= e <= |s| && (e == |s| || !IsDigit(s[e]))
    decreases |s| - i
  {
    if i < |s| && IsDigit(s[i]) then DigitEnd(s, i + 1) else i
  }

  /** Everything DigitEnd skips is a digit. */
  lemma {:induction false} DigitEndDigits(s: string, i: nat)
    requires i <= |s|
    ensures AllDigits(s[i..DigitEnd(s, i)])
    decreases |s| - i
  {
    if i < |s| && IsDigit(s[i]) {
      DigitEndDigits(s, i + 1);
      assert s[i..DigitEnd(s, i)] == [s[i]] + s[i + 1..DigitEnd(s, i + 1)];
    }
  }

  /** The end of the longest run of characters other than ' ' starting at i (what [^ ]+ takes). */
  function NonBlankEnd(s: string, i: nat): (e: nat)
    requires i <= |s|
    ensures i <= e <= |s| && (e == |s| || s[e] == ' ')
    decreases |s| - i
  {
    if i < |s| && s[i] != ' ' then NonBlankEnd(s, i + 1) else i
  }

  /** Nothing NonBlankEnd skips is a blank. */
  lemma {:induction false} NonBlankEndRun(s: string, i: nat)
    requires i <= |s|
    ensures forall k :: i <= k < NonBlankEnd(s, i) ==> s[k] != ' '
    decreases |s| - i
  {
    if i < |s| && s[i] != ' ' {
      NonBlankEndRun(s, i + 1);
    }
  }

  /** `, Peak <peakmem>)` at k: the greedy [^ ]+ backs off to the last ')' inside its run. */
  function PeakAt(s: string, k: nat): (r: Option<string>)
    requires k <= |s|
    ensures r.Some? ==> r.value != [] && ' ' !in r.value
  {
    if !At(s, k, ", Peak ") then None
    else
      var j := k + 7;
      var e := NonBlankEnd(s, j);
      if e - j < 2 then None
      else match LastIndexIn(s, ')', j + 1, e)
        case None => None
        case Some(m) =>
          NonBlankEndRun(s, j);
          assert forall c :: c in s[j..m] ==> c != ' ';
          Some(s[j..m])
  }

  /** The lazy `.*?` before `, Peak`: the first k from `from` on (not crossing a newline) where PeakAt succeeds. */
  function FindPeak(s: string, k: nat): (r: Option<string>)
    requires k <= |s|
    ensures r.Some? ==> r.value != [] && ' ' !in r.value
    decreases |s| - k
  {
    match PeakAt(s, k)
    case Some(p) => Some(p)
    case None => if k < |s| && s[k] != '\n' then FindPeak(s, k + 1) else None
  }

  /** The fields of the re_global_progress match at the start of the line. */
  datatype Progress = Progress(fra: nat, mem: string, peakmem: string)

  function MatchProgress(line: string): (r: Option<Progress>)
    ensures r.Some? ==> StartsWith(line, "Fra:") && r.value.mem != [] && ' ' !in r.value.mem && r.value.peakmem != []
  {
    if !StartsWith(line, "Fra:") then None
    else
      var d := DigitEnd(line, 4);
      if d == 4 || !At(line, d, " Mem:") then None
      else
        var q := d + 5;
        var e := NonBlankEnd(line, q);
        if e == q || !At(line, e, " (") then None
        else match FindPeak(line, e + 2)
          case None => None
          case Some(peak) =>
            NonBlankEndRun(line, q);
            assert forall c :: c in line[q..e] ==> c != ' ';
            Some(Progress(RunValue(line, 4), line[q..e], peak))
  }

  /** A duration as hours (optional), minutes, seconds and hundredths. */
  datatype Clock = Clock(hours: nat, minutes: nat, seconds: nat, hunds: nat)

  /** 3600 * hours + 60 * minutes + seconds + hunds / 100. */
  function ClockSeconds(c: Clock): real
  {
    (3600 * c.hours + 60 * c.minutes + c.seconds) as real + c.hunds as real / 100.0
  }

  /** int() of the run of digits starting at i. */
  function RunValue(s: string, i: nat): nat
    requires i <= |s|
  {
    DigitEndDigits(s, i);
    DigitsValue(s[i..DigitEnd(s, i)])
  }

  /** `((\d+):)?(\d+):(\d+)\.(\d+) ` at p; the form with hours is tried first. */
  function ClockAt(s: string, p: nat): Option<Clock>
    requires p <= |s|
  {
    var e1 := DigitEnd(s, p);
    if e1 == p || e1 == |s| || s[e1] != ':' then None
    else
      var e2 := DigitEnd(s, e1 + 1);
      if e2 == e1 + 1 || e2 == |s| then None
      else if s[e2] == ':' then
        var e3 := DigitEnd(s, e2 + 1);
        if e3 == e2 + 1 || e3 == |s| || s[e3] != '.' then None
        else
          var e4 := DigitEnd(s, e3 + 1);
          if e4 == e3 + 1 || e4 == |s| || s[e4] != ' ' then None
          else Some(Clock(RunValue(s, p), RunValue(s, e1 + 1), RunValue(s, e2 + 1), RunValue(s, e3 + 1)))
      else if s[e2] == '.' then
        var e3 := DigitEnd(s, e2 + 1);
        if e3 == e2 + 1 || e3 == |s| || s[e3] != ' ' then None
        else Some(Clock(0, RunValue(s, p), RunValue(s, e1 + 1), RunValue(s, e2 + 1)))
      else None
  }

  /** re.search of tag + clock: the leftmost position that matches. */
  function SearchClock(s: string, tag: string, i: nat): Option<Clock>
    requires i <= |s|
    decreases |s| - i
  {
    if At(s, i, tag) && ClockAt(s, i + |tag|).Some? then ClockAt(s, i + |tag|)
    else if i < |s| then SearchClock(s, tag, i + 1)
    else None
  }

  /** re_status: the text after the last '|', when a blank and at least one more character follow it. */
  function StatusOf(line: string): (r: Option<string>)
    ensures r.Some? ==> r.value != [] && '|' !in r.value
    ensures r.Some? ==> |r.value| + 2 <= |line| && line == line[..|line| - |r.value| - 2] + "| " + r.value
  {
    match LastIndexIn(line, '|', 0, |line|)
    case None => None
    case Some(j) =>
      if j + 2 < |line| && line[j + 1] == ' ' then
        assert forall k :: j + 2 <= k < |line| ==> line[k] != '|';
        assert line == line[..j] + "| " + line[j + 2..] by {
          assert line[..j + 2] == line[..j] + "| ";
        }
        Some(line[j + 2..])
      else None
  }

  datatype RenderInfo = RenderInfo(
    fra: nat, mem: string, peakmem: string,
    timeSec: Option<real>, remainingSec: Option<real>, status: Option<string>)

  function Seconds(c: Option<Clock>): Option<real>
  {
    if c.Some? then Some(ClockSeconds(c.value)) else None
  }

  /** parse_render_line(line). */
  function ParseRenderLine(line: string): (r: Option<RenderInfo>)
    ensures r.Some? <==> MatchProgress(line).Some?
    ensures r.Some? ==> (r.value.fra == MatchProgress(line).value.fra && r.value.mem == MatchProgress(line).value.mem &&
      r.value.peakmem == MatchProgress(line).value.peakmem)
  {
    match MatchProgress(line)
    case None => None
    case Some(p) =>
      Some(RenderInfo(p.fra, p.mem, p.peakmem,
        Seconds(SearchClock(line, "| Time:", 0)),
        Seconds(SearchClock(line, "| Remaining:", 0)),
        StatusOf(line)))
  }

  // Round trips: a line built from its fields parses back to those fields.

  lemma {:induction false} DigitEndOf(s: string, i: nat, d: string)
    requires At(s, i, d) && AllDigits(d) && (i + |d| == |s| || !IsDigit(s[i + |d|]))
    ensures DigitEnd(s, i) == i + |d|
    decreases |d|
  {
    if d != [] {
      assert s[i] == d[0];
      assert At(s, i + 1, d[1..]) by { assert s[i + 1..i + |d|] == s[i..i + |d|][1..]; }
      DigitEndOf(s, i + 1, d[1..]);
    }
  }

  lemma {:induction false} NonBlankEndOf(s: string, i: nat, w: string)
    requires At(s, i, w) && ' ' !in w && (i + |w| == |s| || s[i + |w|] == ' ')
    ensures NonBlankEnd(s, i) == i + |w|
    decreases |w|
  {
    if w != [] {
      assert s[i] == w[0];
      assert At(s, i + 1, w[1..]) by { assert s[i + 1..i + |w|] == s[i..i + |w|][1..]; }
      NonBlankEndOf(s, i + 1, w[1..]);
    }
  }

  lemma {:induction false} FindPeakSkips(s: string, k: nat, stop: nat)
    requires k <= stop <= |s| && forall m :: k <= m < stop ==> s[m] != ',' && s[m] != '\n'
    ensures FindPeak(s, k) == FindPeak(s, stop)
    decreases stop - k
  {
    if k < stop {
      assert !At(s, k, ", Peak ") by { assert s[k] != ','; }
      FindPeakSkips(s, k + 1, stop);
    }
  }

  lemma AtSplit(s: string, i: nat, x: string, y: string)
    requires At(s, i, x + y)
    ensures At(s, i, x) && At(s, i + |x|, y)
  {
    assert s[i..i + |x|] == s[i..i + |x + y|][..|x|];
    assert s[i + |x|..i + |x| + |y|] == s[i..i + |x + y|][|x|..];
  }

  lemma AtHead(s: string, i: nat, x: string)
    requires At(s, i, x) && x != []
    ensures s[i] == x[0]
  {
    assert s[i] == s[i..i + |x|][0];
  }

  /** The progress part of a line, right after "Fra:" + frame + " Mem:" + mem + " (". */
  function PeakText(inner: string, peak: string, rest: string): string
  {
    inner + (", Peak " + (peak + (")" + rest)))
  }

  /** A run of characters other than ' ' at i, ended by a blank or by the end of s. */
  lemma NonBlankRunAt(s: string, i: nat, w: string, tail: string)
    requires ' ' !in w && At(s, i, w + tail) && ((tail == [] && i + |w| == |s|) || (tail != [] && tail[0] == ' '))
    ensures NonBlankEnd(s, i) == i + |w| && s[i..i + |w|] == w && At(s, i + |w|, tail)
  {
    AtSplit(s, i, w, tail);
    if tail != [] { AtHead(s, i + |w|, tail); }
    NonBlankEndOf(s, i, w);
  }

  lemma NoCharAt(s: string, i: nat, w: string, c: char)
    requires At(s, i, w) && c !in w
    ensures forall m :: i <= m < i + |w| ==> s[m] != c
  {
    forall m | i <= m < i + |w| ensures s[m] != c {
      assert s[m] == s[i..i + |w|][m - i];
    }
  }

  lemma PeakTextFound(s: string, k0: nat, inner: string, peak: string, rest: string)
    requires ',' !in inner && '\n' !in inner
    requires peak != [] && ' ' !in peak
    requires rest == [] || rest[0] == ' '
    requires At(s, k0, PeakText(inner, peak, rest)) && k0 + |PeakText(inner, peak, rest)| == |s|
    ensures FindPeak(s, k0) == Some(peak)
  {
    var k := k0 + |inner|;
    AtSplit(s, k0, inner, ", Peak " + (peak + (")" + rest)));
    NoCharAt(s, k0, inner, ',');
    NoCharAt(s, k0, inner, '\n');
    FindPeakSkips(s, k0, k);
    PeakAtFound(s, k, peak, rest);
  }

  /** PeakAt from the end of the figure after `, Peak ` and its last ')'. */
  lemma PeakAtFrom(s: string, k: nat, e: nat, m: nat, peak: string)
    requires k + 9 <= e <= |s| && At(s, k, ", Peak ") && NonBlankEnd(s, k + 7) == e
    requires LastIndexIn(s, ')', k + 8, e) == Some(m) && s[k + 7..m] == peak
    ensures PeakAt(s, k) == Some(peak)
  {
  }

  lemma PeakAtFound(s: string, k: nat, peak: string, rest: string)
    requires peak != [] && ' ' !in peak
    requires rest == [] || rest[0] == ' '
    requires At(s, k, ", Peak " + (peak + (")" + rest))) && k + 7 + |peak| + 1 + |rest| == |s|
    ensures PeakAt(s, k) == Some(peak)
  {
    AtSplit(s, k, ", Peak ", peak + (")" + rest));
    var j := k + 7;
    var w := peak + ")";
    assert peak + (")" + rest) == w + rest;
    NonBlankRunAt(s, j, w, rest);
    AtSplit(s, j, peak, ")");
    CharAt(s, j + |peak|, ")", []);
    var m := j + |peak|;
    assert s[m] == ')' && j + |w| == m + 1 && j + 1 < m + 1;
    assert LastIndexIn(s, ')', j + 1, m + 1) == Some(m);
    PeakAtFrom(s, k, j + |w|, m, peak);
  }

  /** The start of a progress line as Blender prints it. */
  function ProgressLine(fra: string, mem: string, inner: string, peak: string, rest: string): string
  {
    "Fra:" + (fra + (" Mem:" + (mem + (" (" + PeakText(inner, peak, rest)))))
  }

  /** MatchProgress from the ends of the frame number and the memory figure. */
  lemma MatchProgressAt(line: string, v: nat, mem: string, peak: string, d: nat, e: nat)
    requires 4 < d && d + 5 < e && e + 2 <= |line|
    requires StartsWith(line, "Fra:") && DigitEnd(line, 4) == d && At(line, d, " Mem:")
    requires NonBlankEnd(line, d + 5) == e && At(line, e, " (") && FindPeak(line, e + 2) == Some(peak)
    requires RunValue(line, 4) == v && line[d + 5..e] == mem
    ensures MatchProgress(line) == Some(Progress(v, mem, peak))
  {
  }

  /** A line built from a frame number, memory figures and anything after them matches with those fields. */
  lemma ProgressLineParses(fra: string, mem: string, inner: string, peak: string, rest: string)
    requires fra != [] && AllDigits(fra)
    requires mem != [] && ' ' !in mem
    requires ',' !in inner && '\n' !in inner
    requires peak != [] && ' ' !in peak
    requires rest == [] || rest[0] == ' '
    ensures MatchProgress(ProgressLine(fra, mem, inner, peak, rest)) == Some(Progress(DigitsValue(fra), mem, peak))
  {
    var s := ProgressLine(fra, mem, inner, peak, rest);
    assert At(s, 0, s);
    ProgressAt(s, fra, mem, inner, peak, rest);
  }

  lemma ProgressAt(s: string, fra: string, mem: string, inner: string, peak: string, rest: string)
    requires fra != [] && AllDigits(fra)
    requires mem != [] && ' ' !in mem
    requires ',' !in inner && '\n' !in inner
    requires peak != [] && ' ' !in peak
    requires rest == [] || rest[0] == ' '
    requires At(s, 0, ProgressLine(fra, mem, inner, peak, rest)) && |s| == |ProgressLine(fra, mem, inner, peak, rest)|
    ensures MatchProgress(s) == Some(Progress(DigitsValue(fra), mem, peak))
  {
    var d, e := ProgressLayout(s, fra, mem, inner, peak, rest);
    MatchProgressAt(s, DigitsValue(fra), mem, peak, d, e);
  }

  /** Where the fields of a progress line sit. */
  lemma ProgressLayout(s: string, fra: string, mem: string, inner: string, peak: string, rest: string) returns (d: nat, e: nat)
    requires fra != [] && AllDigits(fra)
    requires mem != [] && ' ' !in mem
    requires ',' !in inner && '\n' !in inner
    requires peak != [] && ' ' !in peak
    requires rest == [] || rest[0] == ' '
    requires At(s, 0, ProgressLine(fra, mem, inner, peak, rest)) && |s| == |ProgressLine(fra, mem, inner, peak, rest)|
    ensures d == 4 + |fra| && e == d + 5 + |mem| && e + 2 <= |s|
    ensures StartsWith(s, "Fra:") && DigitEnd(s, 4) == d && At(s, d, " Mem:")
    ensures NonBlankEnd(s, d + 5) == e && At(s, e, " (") && FindPeak(s, e + 2) == Some(peak)
    ensures RunValue(s, 4) == DigitsValue(fra) && s[d + 5..e] == mem
  {
    var tail := PeakText(inner, peak, rest);
    d, e := HeadLayout(s, fra, mem, tail);
    PeakTextFound(s, e + 2, inner, peak, rest);
  }

  /** Where the frame number and the memory figure of a progress line sit. */
  lemma HeadLayout(s: string, fra: string, mem: string, tail: string) returns (d: nat, e: nat)
    requires fra != [] && AllDigits(fra)
    requires mem != [] && ' ' !in mem
    requires At(s, 0, "Fra:" + (fra + (" Mem:" + (mem + (" (" + tail))))) && |s| == 11 + |fra| + |mem| + |tail|
    ensures d == 4 + |fra| && e == d + 5 + |mem| && e + 2 + |tail| == |s| && At(s, e + 2, tail)
    ensures StartsWith(s, "Fra:") && DigitEnd(s, 4) == d && At(s, d, " Mem:")
    ensures NonBlankEnd(s, d + 5) == e && At(s, e, " (")
    ensures RunValue(s, 4) == DigitsValue(fra) && s[d + 5..e] == mem
  {
    AtSplit(s, 0, "Fra:", fra + (" Mem:" + (mem + (" (" + tail))));
    DigitRunAt(s, 4, fra, " Mem:" + (mem + (" (" + tail)));
    d := 4 + |fra|;
    AtSplit(s, d, " Mem:", mem + (" (" + tail));
    NonBlankRunAt(s, d + 5, mem, " (" + tail);
    e := d + 5 + |mem|;
    AtSplit(s, e, " (", tail);
    assert StartsWith(s, "Fra:") by { assert s[..4] == s[0..4]; }
  }

  predicate DigitRun(d: string) { d != [] && AllDigits(d) }

  /** A run of digits at i, ended by a character that is not a digit. */
  lemma DigitRunAt(s: string, i: nat, d: string, tail: string)
    requires DigitRun(d) && At(s, i, d + tail) && tail != [] && !IsDigit(tail[0])
    ensures DigitEnd(s, i) == i + |d| && RunValue(s, i) == DigitsValue(d) && At(s, i + |d|, tail)
  {
    RunEndAt(s, i, d, tail);
    AtSplit(s, i, d, tail);
    RunValueAt(s, i, d);
  }

  lemma RunEndAt(s: string, i: nat, d: string, tail: string)
    requires DigitRun(d) && At(s, i, d + tail) && tail != [] && !IsDigit(tail[0])
    ensures DigitEnd(s, i) == i + |d|
  {
    AtSplit(s, i, d, tail);
    AtHead(s, i + |d|, tail);
    DigitEndOf(s, i, d);
  }

  lemma RunValueAt(s: string, i: nat, d: string)
    requires DigitRun(d) && At(s, i, d) && DigitEnd(s, i) == i + |d|
    ensures RunValue(s, i) == DigitsValue(d)
  {
  }

  /** One given character at i. */
  lemma CharAt(s: string, i: nat, c: string, tail: string)
    requires |c| == 1 && At(s, i, c + tail)
    ensures s[i] == c[0] && At(s, i + 1, tail)
  {
    AtSplit(s, i, c, tail);
    AtHead(s, i, c);
  }

  /**
   * A clock without hours: digit runs ending at a, b and e, with ':' at a, '.' at b and a
   * blank at e. The clock holds the values of the three runs.
   */
  lemma ShortClockAt(s: string, p: nat, a: nat, b: nat, e: nat)
    requires p < a < b < e < |s| && DigitEnd(s, p) == a && s[a] == ':' && DigitEnd(s, a + 1) == b && s[b] == '.'
    requires a + 1 < b && b + 1 < e && DigitEnd(s, b + 1) == e && s[e] == ' '
    ensures ClockAt(s, p) == Some(Clock(0, RunValue(s, p), RunValue(s, a + 1), RunValue(s, b + 1)))
  {
  }

  /** A clock with hours: four digit runs separated by ':', ':' and '.', then a blank. */
  lemma LongClockAt(s: string, p: nat, a: nat, b: nat, c: nat, e: nat)
    requires p < a < b < c < e < |s| && DigitEnd(s, p) == a && s[a] == ':' && DigitEnd(s, a + 1) == b && s[b] == ':'
    requires a + 1 < b && b + 1 < c && c + 1 < e && DigitEnd(s, b + 1) == c && s[c] == '.' && DigitEnd(s, c + 1) == e && s[e] == ' '
    ensures ClockAt(s, p) == Some(Clock(RunValue(s, p), RunValue(s, a + 1), RunValue(s, b + 1), RunValue(s, c + 1)))
  {
  }

  /** A maximal run of the digits d at i, followed by the character c. */
  predicate RunThen(s: string, i: nat, d: string, c: char)
  {
    DigitRun(d) && At(s, i, d) && i + |d| < |s| && s[i + |d|] == c
  }

  /** The value of a run of digits read at i is the value of those digits. */
  lemma RunThenValue(s: string, i: nat, d: string, c: char)
    requires RunThen(s, i, d, c) && !IsDigit(c)
    ensures DigitEnd(s, i) == i + |d| && RunValue(s, i) == DigitsValue(d)
  {
    DigitEndOf(s, i, d);
    RunValueAt(s, i, d);
  }

  // Clocks as text: `[hours:]minutes:seconds.hunds` followed by a blank.

  /** The clock text Blender prints after `| Time:` and `| Remaining:`; empty hours give the short form. */
  function ClockText(hours: string, minutes: string, seconds: string, hunds: string): string
  {
    (if hours == [] then [] else hours + [':']) + ShortClockText(minutes, seconds, hunds)
  }

  function ShortClockText(minutes: string, seconds: string, hunds: string): string
  {
    minutes + ([':'] + (seconds + (['.'] + (hunds + [' ']))))
  }

  /** Every part is a run of digits; the hours may be left out. */
  predicate ClockDigits(hours: string, minutes: string, seconds: string, hunds: string)
  {
    (hours == [] || DigitRun(hours)) && DigitRun(minutes) && DigitRun(seconds) && DigitRun(hunds)
  }

  /** The clock those digits denote, with hours 0 when they are left out. */
  function ClockOf(hours: string, minutes: string, seconds: string, hunds: string): Clock
    requires ClockDigits(hours, minutes, seconds, hunds)
  {
    Clock(if hours == [] then 0 else DigitsValue(hours), DigitsValue(minutes), DigitsValue(seconds), DigitsValue(hunds))
  }

  /** Where the runs of a clock without hours end, when its text is at p. */
  lemma ShortClockTextAt(s: string, p: nat, minutes: string, seconds: string, hunds: string) returns (a: nat, b: nat, e: nat)
    requires DigitRun(minutes) && DigitRun(seconds) && DigitRun(hunds)
    requires At(s, p, ShortClockText(minutes, seconds, hunds))
    ensures a == p + |minutes| && b == a + 1 + |seconds| && e == b + 1 + |hunds| && e < |s|
    ensures DigitEnd(s, p) == a && s[a] == ':' && DigitEnd(s, a + 1) == b && s[b] == '.' && DigitEnd(s, b + 1) == e && s[e] == ' '
    ensures At(s, p, minutes) && At(s, a + 1, seconds) && At(s, b + 1, hunds)
  {
    a := p + |minutes|;
    RunThenChar(s, p, minutes, ':', seconds + (['.'] + (hunds + [' '])));
    b, e := SecondsAt(s, a + 1, seconds, hunds);
  }

  /** The seconds and hundredths runs of a clock whose seconds start at q. */
  lemma SecondsAt(s: string, q: nat, seconds: string, hunds: string) returns (b: nat, e: nat)
    requires DigitRun(seconds) && DigitRun(hunds) && At(s, q, seconds + (['.'] + (hunds + [' '])))
    ensures b == q + |seconds| && e == b + 1 + |hunds| && e < |s|
    ensures DigitEnd(s, q) == b && s[b] == '.' && DigitEnd(s, b + 1) == e && s[e] == ' '
    ensures At(s, q, seconds) && At(s, b + 1, hunds)
  {
    b := q + |seconds|;
    RunThenChar(s, q, seconds, '.', hunds + [' ']);
    e := HundsAt(s, b + 1, hunds);
  }

  /** The hundredths run of a clock and the blank after it. */
  lemma HundsAt(s: string, q: nat, hunds: string) returns (e: nat)
    requires DigitRun(hunds) && At(s, q, hunds + [' '])
    ensures e == q + |hunds| && e < |s| && DigitEnd(s, q) == e && s[e] == ' ' && At(s, q, hunds)
  {
    e := q + |hunds|;
    assert hunds + [' '] == hunds + ([' '] + []);
    RunThenChar(s, q, hunds, ' ', []);
  }

  /** A run of digits d at i, the character c after it, then tail. */
  lemma RunThenChar(s: string, i: nat, d: string, c: char, tail: string)
    requires DigitRun(d) && !IsDigit(c) && At(s, i, d + ([c] + tail))
    ensures i + |d| < |s| && DigitEnd(s, i) == i + |d| && s[i + |d|] == c
    ensures At(s, i, d) && At(s, i + |d| + 1, tail)
  {
    RunEndAt(s, i, d, [c] + tail);
    AtSplit(s, i, d, [c] + tail);
    CharAt(s, i + |d|, [c], tail);
  }

  /** A clock printed at p reads back as the clock of its digits. */
  lemma ClockTextParses(s: string, p: nat, hours: string, minutes: string, seconds: string, hunds: string)
    requires ClockDigits(hours, minutes, seconds, hunds) && At(s, p, ClockText(hours, minutes, seconds, hunds))
    ensures ClockAt(s, p) == Some(ClockOf(hours, minutes, seconds, hunds))
  {
    var short := ShortClockText(minutes, seconds, hunds);
    if hours == [] {
      assert ClockText(hours, minutes, seconds, hunds) == short;
      ShortTextClock(s, p, minutes, seconds, hunds);
    } else {
      assert ClockText(hours, minutes, seconds, hunds) == hours + ([':'] + short);
      LongTextClock(s, p, hours, minutes, seconds, hunds);
    }
  }

  lemma ShortTextClock(s: string, p: nat, minutes: string, seconds: string, hunds: string)
    requires DigitRun(minutes) && DigitRun(seconds) && DigitRun(hunds)
    requires At(s, p, ShortClockText(minutes, seconds, hunds))
    ensures ClockAt(s, p) == Some(Clock(0, DigitsValue(minutes), DigitsValue(seconds), DigitsValue(hunds)))
  {
    var a, b, e := ShortClockTextAt(s, p, minutes, seconds, hunds);
    ShortClockAt(s, p, a, b, e);
    assert s[p..a] == minutes && s[a + 1..b] == seconds && s[b + 1..e] == hunds;
  }

  lemma LongTextClock(s: string, p: nat, hours: string, minutes: string, seconds: string, hunds: string)
    requires DigitRun(hours) && DigitRun(minutes) && DigitRun(seconds) && DigitRun(hunds)
    requires At(s, p, hours + ([':'] + ShortClockText(minutes, seconds, hunds)))
    ensures ClockAt(s, p) == Some(Clock(DigitsValue(hours), DigitsValue(minutes), DigitsValue(seconds), DigitsValue(hunds)))
  {
    RunThenChar(s, p, hours, ':', ShortClockText(minutes, seconds, hunds));
    LongClockRest(s, p, p + |hours|, hours, minutes, seconds, hunds);
  }

  /** A clock with hours whose hours run ends at a, with the rest of its text after the ':'. */
  lemma LongClockRest(s: string, p: nat, a: nat, hours: string, minutes: string, seconds: string, hunds: string)
    requires DigitRun(hours) && DigitRun(minutes) && DigitRun(seconds) && DigitRun(hunds)
    requires a == p + |hours| && a < |s| && DigitEnd(s, p) == a && s[a] == ':' && At(s, p, hours)
    requires At(s, a + 1, ShortClockText(minutes, seconds, hunds))
    ensures ClockAt(s, p) == Some(Clock(DigitsValue(hours), DigitsValue(minutes), DigitsValue(seconds), DigitsValue(hunds)))
  {
    var b, c, e := ShortClockTextAt(s, a + 1, minutes, seconds, hunds);
    LongClockValues(s, p, a, b, c, e, hours, minutes, seconds, hunds);
  }

  /** The runs of a clock with hours, ending at a, b, c and e, hold the given digits. */
  lemma LongClockValues(s: string, p: nat, a: nat, b: nat, c: nat, e: nat, hours: string, minutes: string, seconds: string, hunds: string)
    requires DigitRun(hours) && DigitRun(minutes) && DigitRun(seconds) && DigitRun(hunds)
    requires a == p + |hours| && b == a + 1 + |minutes| && c == b + 1 + |seconds| && e == c + 1 + |hunds| && e < |s|
    requires DigitEnd(s, p) == a && s[a] == ':' && DigitEnd(s, a + 1) == b && s[b] == ':'
    requires DigitEnd(s, b + 1) == c && s[c] == '.' && DigitEnd(s, c + 1) == e && s[e] == ' '
    requires At(s, p, hours) && At(s, a + 1, minutes) && At(s, b + 1, seconds) && At(s, c + 1, hunds)
    ensures ClockAt(s, p) == Some(Clock(DigitsValue(hours), DigitsValue(minutes), DigitsValue(seconds), DigitsValue(hunds)))
  {
    LongClockAt(s, p, a, b, c, e);
    assert s[p..a] == hours && s[a + 1..b] == minutes && s[b + 1..c] == seconds && s[c + 1..e] == hunds;
  }

  /** Every clock ClockAt accepts is printed clock text (the converse of ClockTextParses): its digits and what follows. */
  lemma ClockAtShape(s: string, p: nat) returns (hours: string, minutes: string, seconds: string, hunds: string, rest: string)
    requires p <= |s| && ClockAt(s, p).Some?
    ensures ClockDigits(hours, minutes, seconds, hunds) && ClockAt(s, p) == Some(ClockOf(hours, minutes, seconds, hunds))
    ensures s[p..] == ClockText(hours, minutes, seconds, hunds) + rest
  {
    var e1 := DigitEnd(s, p);
    var e2 := DigitEnd(s, e1 + 1);
    if s[e2] == ':' {
      var e3 := DigitEnd(s, e2 + 1);
      var e4 := DigitEnd(s, e3 + 1);
      hours, minutes, seconds, hunds, rest := s[p..e1], s[e1 + 1..e2], s[e2 + 1..e3], s[e3 + 1..e4], s[e4 + 1..];
      LongParts(s, p, e1, e2, e3, e4);
    } else {
      var e3 := DigitEnd(s, e2 + 1);
      hours, minutes, seconds, hunds, rest := [], s[p..e1], s[e1 + 1..e2], s[e2 + 1..e3], s[e3 + 1..];
      ShortPartsAt(s, p, e1, e2, e3);
    }
  }

  /** The digits of a clock with hours whose runs end at a, b, c and e. */
  lemma LongParts(s: string, p: nat, a: nat, b: nat, c: nat, e: nat)
    requires p < a < b < c < e < |s| && DigitEnd(s, p) == a && s[a] == ':' && DigitEnd(s, a + 1) == b && s[b] == ':'
    requires a + 1 < b && b + 1 < c && c + 1 < e && DigitEnd(s, b + 1) == c && s[c] == '.' && DigitEnd(s, c + 1) == e && s[e] == ' '
    ensures ClockDigits(s[p..a], s[a + 1..b], s[b + 1..c], s[c + 1..e])
    ensures ClockAt(s, p) == Some(ClockOf(s[p..a], s[a + 1..b], s[b + 1..c], s[c + 1..e]))
    ensures s[p..] == ClockText(s[p..a], s[a + 1..b], s[b + 1..c], s[c + 1..e]) + s[e + 1..]
  {
    RunDigits(s, p, a);
    RunDigits(s, a + 1, b);
    RunDigits(s, b + 1, c);
    RunDigits(s, c + 1, e);
    LongClockAt(s, p, a, b, c, e);
    LongText(s, p, a, b, c, e);
  }

  /** The text from p of a clock with hours whose runs end at a, b, c and e. */
  lemma LongText(s: string, p: nat, a: nat, b: nat, c: nat, e: nat)
    requires p < a < b < c < e < |s| && s[a] == ':' && s[b] == ':' && s[c] == '.' && s[e] == ' '
    ensures s[p..] == ClockText(s[p..a], s[a + 1..b], s[b + 1..c], s[c + 1..e]) + s[e + 1..]
  {
    var short := ShortClockText(s[a + 1..b], s[b + 1..c], s[c + 1..e]);
    ShortParts(s, a + 1, b, c, e);
    CharThen(s, a);
    SliceJoin(s, p, a);
    assert ClockText(s[p..a], s[a + 1..b], s[b + 1..c], s[c + 1..e]) == (s[p..a] + [':']) + short;
    Assoc(s[p..a], [':'], short);
    Assoc(s[p..a] + [':'], short, s[e + 1..]);
    Assoc(s[p..a], [':'] + short, s[e + 1..]);
    Assoc([':'], short, s[e + 1..]);
  }

  /** The digits of a clock without hours whose runs end at a, b and e. */
  lemma ShortPartsAt(s: string, p: nat, a: nat, b: nat, e: nat)
    requires p < a < b < e < |s| && DigitEnd(s, p) == a && s[a] == ':' && DigitEnd(s, a + 1) == b && s[b] == '.'
    requires a + 1 < b && b + 1 < e && DigitEnd(s, b + 1) == e && s[e] == ' '
    ensures ClockDigits([], s[p..a], s[a + 1..b], s[b + 1..e])
    ensures ClockAt(s, p) == Some(ClockOf([], s[p..a], s[a + 1..b], s[b + 1..e]))
    ensures s[p..] == ClockText([], s[p..a], s[a + 1..b], s[b + 1..e]) + s[e + 1..]
  {
    RunDigits(s, p, a);
    RunDigits(s, a + 1, b);
    RunDigits(s, b + 1, e);
    ShortClockAt(s, p, a, b, e);
    ShortParts(s, p, a, b, e);
  }

  /** The nonempty run DigitEnd skips is a run of digits. */
  lemma RunDigits(s: string, p: nat, a: nat)
    requires p < a <= |s| && DigitEnd(s, p) == a
    ensures DigitRun(s[p..a]) && RunValue(s, p) == DigitsValue(s[p..a])
  {
    DigitEndDigits(s, p);
  }

  /** The text from p of a clock without hours whose runs end at a, b and e. */
  lemma ShortParts(s: string, p: nat, a: nat, b: nat, e: nat)
    requires p <= a < b < e < |s| && s[a] == ':' && s[b] == '.' && s[e] == ' '
    ensures s[p..] == ShortClockText(s[p..a], s[a + 1..b], s[b + 1..e]) + s[e + 1..]
  {
    CharThen(s, e);
    SliceJoin(s, b + 1, e);
    CharThen(s, b);
    SliceJoin(s, a + 1, b);
    CharThen(s, a);
    SliceJoin(s, p, a);
    ShortClockTextThen(s[p..a], s[a + 1..b], s[b + 1..e], s[e + 1..]);
  }

  lemma CharThen(s: string, i: nat)
    requires i < |s|
    ensures s[i..] == [s[i]] + s[i + 1..]
  {
  }

  /** Clock text followed by more text, written out piece by piece. */
  lemma ShortClockTextThen(minutes: string, seconds: string, hunds: string, rest: string)
    ensures ShortClockText(minutes, seconds, hunds) + rest == minutes + ([':'] + (seconds + (['.'] + (hunds + ([' '] + rest)))))
  {
    Assoc(hunds, [' '], rest);
    Assoc(['.'], hunds + [' '], rest);
    Assoc(seconds, ['.'] + (hunds + [' ']), rest);
    Assoc([':'], seconds + (['.'] + (hunds + [' '])), rest);
    Assoc(minutes, [':'] + (seconds + (['.'] + (hunds + [' ']))), rest);
  }

  lemma Assoc(x: string, y: string, z: string)
    ensures (x + y) + z == x + (y + z)
  {
  }

  /** No position from i up to at starts tag followed by a clock, so a regex search does not stop there. */
  predicate NoClockBetween(s: string, tag: string, i: nat, at: nat)
    decreases at - i
  {
    i >= at || (!(At(s, i, tag) && ClockAt(s, i + |tag|).Some?) && NoClockBetween(s, tag, i + 1, at))
  }

  predicate NoClockBefore(s: string, tag: string, at: nat) { NoClockBetween(s, tag, 0, at) }

  /** The first tag followed by a clock is where the search stops, with that clock. */
  lemma {:induction false} SearchClockFinds(s: string, tag: string, i: nat, at: nat, c: Clock)
    requires i <= at && at + |tag| <= |s|
    requires NoClockBetween(s, tag, i, at)
    requires At(s, at, tag) && ClockAt(s, at + |tag|) == Some(c)
    ensures SearchClock(s, tag, i) == Some(c)
    decreases at - i
  {
    if i < at { SearchClockFinds(s, tag, i + 1, at, c); }
  }

  /** Where a successful search stopped: the first tag followed by a clock. */
  lemma {:induction false} SearchClockStops(s: string, tag: string, i: nat) returns (at: nat)
    requires i <= |s| && SearchClock(s, tag, i).Some?
    ensures i <= at && At(s, at, tag) && ClockAt(s, at + |tag|) == SearchClock(s, tag, i)
    ensures NoClockBetween(s, tag, i, at)
    decreases |s| - i
  {
    if At(s, i, tag) && ClockAt(s, i + |tag|).Some? {
      at := i;
    } else {
      assert i < |s|;
      assert SearchClock(s, tag, i) == SearchClock(s, tag, i + 1);
      at := SearchClockStops(s, tag, i + 1);
    }
  }

  /** A tag and printed clock text at `at`, with no earlier match: the search reads that clock. */
  lemma SearchClockText(s: string, tag: string, at: nat, hours: string, minutes: string, seconds: string, hunds: string)
    requires ClockDigits(hours, minutes, seconds, hunds)
    requires At(s, at, tag) && At(s, at + |tag|, ClockText(hours, minutes, seconds, hunds))
    requires NoClockBefore(s, tag, at)
    ensures SearchClock(s, tag, 0) == Some(ClockOf(hours, minutes, seconds, hunds))
  {
    ClockTextParses(s, at + |tag|, hours, minutes, seconds, hunds);
    SearchClockFinds(s, tag, 0, at, ClockOf(hours, minutes, seconds, hunds));
  }

  /** Where tag and the clock text sit in pre + tag + text + post. */
  lemma TagThenText(pre: string, tag: string, text: string, post: string)
    ensures At(pre + tag + text + post, |pre|, tag) && At(pre + tag + text + post, |pre| + |tag|, text)
  {
    AtMiddle(pre, tag, text + post);
    AtMiddle(pre + tag, text, post);
    assert pre + tag + (text + post) == pre + tag + text + post;
  }

  lemma AtMiddle(pre: string, x: string, post: string)
    ensures At(pre + x + post, |pre|, x)
  {
    assert (pre + x + post)[|pre|..|pre| + |x|] == x;
  }

  /** time_sec of a progress line is 3600 h + 60 m + s + hunds / 100 of the first `| Time:` clock. */
  lemma RenderLineTime(line: string, pre: string, hours: string, minutes: string, seconds: string, hunds: string, post: string)
    requires MatchProgress(line).Some? && ClockDigits(hours, minutes, seconds, hunds)
    requires line == pre + "| Time:" + ClockText(hours, minutes, seconds, hunds) + post
    requires NoClockBefore(line, "| Time:", |pre|)
    ensures ParseRenderLine(line).value.timeSec == Some(ClockSeconds(ClockOf(hours, minutes, seconds, hunds)))
  {
    TagThenText(pre, "| Time:", ClockText(hours, minutes, seconds, hunds), post);
    SearchClockText(line, "| Time:", |pre|, hours, minutes, seconds, hunds);
  }

  /** remaining_sec of a progress line, from the first `| Remaining:` clock. */
  lemma RenderLineRemaining(line: string, pre: string, hours: string, minutes: string, seconds: string, hunds: string, post: string)
    requires MatchProgress(line).Some? && ClockDigits(hours, minutes, seconds, hunds)
    requires line == pre + "| Remaining:" + ClockText(hours, minutes, seconds, hunds) + post
    requires NoClockBefore(line, "| Remaining:", |pre|)
    ensures ParseRenderLine(line).value.remainingSec == Some(ClockSeconds(ClockOf(hours, minutes, seconds, hunds)))
  {
    TagThenText(pre, "| Remaining:", ClockText(hours, minutes, seconds, hunds), post);
    SearchClockText(line, "| Remaining:", |pre|, hours, minutes, seconds, hunds);
  }

  /** A time_sec that is present comes from the first `| Time:` clock on the line. */
  lemma RenderLineTimeFrom(line: string) returns (at: nat)
    requires ParseRenderLine(line).Some? && ParseRenderLine(line).value.timeSec.Some?
    ensures At(line, at, "| Time:") && NoClockBefore(line, "| Time:", at) && ClockAt(line, at + 7).Some?
    ensures ParseRenderLine(line).value.timeSec == Some(ClockSeconds(ClockAt(line, at + 7).value))
  {
    at := SearchClockStops(line, "| Time:", 0);
    var c := SearchClock(line, "| Time:", 0);
    assert |"| Time:"| == 7 && ClockAt(line, at + 7) == c;
    assert ParseRenderLine(line).value.timeSec == Seconds(c);
  }

  /** A remaining_sec that is present comes from the first `| Remaining:` clock on the line. */
  lemma RenderLineRemainingFrom(line: string) returns (at: nat)
    requires ParseRenderLine(line).Some? && ParseRenderLine(line).value.remainingSec.Some?
    ensures At(line, at, "| Remaining:") && NoClockBefore(line, "| Remaining:", at) && ClockAt(line, at + 12).Some?
    ensures ParseRenderLine(line).value.remainingSec == Some(ClockSeconds(ClockAt(line, at + 12).value))
  {
    at := SearchClockStops(line, "| Remaining:", 0);
    var c := SearchClock(line, "| Remaining:", 0);
    assert |"| Remaining:"| == 12 && ClockAt(line, at + 12) == c;
    assert ParseRenderLine(line).value.remainingSec == Seconds(c);
  }

  /** The status of a progress line is the text after its last `| `. */
  lemma RenderLineStatus(pre: string, status: string)
    requires MatchProgress(pre + "| " + status).Some? && status != [] && '|' !in status
    ensures ParseRenderLine(pre + "| " + status).value.status == Some(status)
  {
    StatusAfterLastBar(pre, status);
  }

  lemma StatusAfterLastBar(pre: string, status: string)
    requires status != [] && '|' !in status
    ensures StatusOf(pre + "| " + status) == Some(status)
  {
    var s := pre + "| " + status;
    var j := |pre|;
    assert s[j] == '|' && s[j + 1] == ' ' && s[j + 2..] == status;
    assert forall k :: j < k < |s| ==> s[k] != '|' by {
      forall k | j < k < |s| ensures s[k] != '|' {
        if k > j + 1 { assert s[k] == status[k - j - 2]; }
      }
    }
    assert LastIndexIn(s, '|', 0, |s|) == Some(j);
  }

  // The converse: every line that matches is a progress line.

  /** Where the lazy `.*?` stopped: the first position from k0 on, on the same line, where PeakAt succeeds. */
  lemma {:induction false} FindPeakWhere(s: string, k0: nat) returns (k: nat)
    requires k0 <= |s| && FindPeak(s, k0).Some?
    ensures k0 <= k <= |s| && PeakAt(s, k) == FindPeak(s, k0)
    ensures forall m :: k0 <= m < k ==> s[m] != '\n'
    decreases |s| - k0
  {
    if PeakAt(s, k0).Some? {
      k := k0;
    } else {
      k := FindPeakWhere(s, k0 + 1);
    }
  }

  /** What PeakAt found at k: `, Peak `, the figure, a ')' and whatever follows. */
  lemma PeakAtShape(s: string, k: nat) returns (rest: string)
    requires k <= |s| && PeakAt(s, k).Some?
    ensures s[k..] == ", Peak " + (PeakAt(s, k).value + (")" + rest))
  {
    var j := k + 7;
    var m := LastIndexIn(s, ')', j + 1, NonBlankEnd(s, j)).value;
    assert PeakAt(s, k).value == s[j..m];
    assert s[k..j] == ", Peak " && s[m..m + 1] == ")";
    rest := s[m + 1..];
    SliceJoin(s, m, m + 1);
    SliceJoin(s, j, m);
    SliceJoin(s, k, j);
  }

  lemma SliceJoin(s: string, a: nat, b: nat)
    requires a <= b <= |s|
    ensures s[a..] == s[a..b] + s[b..]
  {
  }

  /**
   * A line that re_global_progress matches is a progress line: the frame
   * digits, the memory figure, some text without a newline, the peak figure,
   * and anything after it.
   */
  lemma MatchProgressShape(line: string) returns (fra: string, inner: string, rest: string)
    requires MatchProgress(line).Some?
    ensures DigitRun(fra) && DigitsValue(fra) == MatchProgress(line).value.fra && '\n' !in inner
    ensures line == ProgressLine(fra, MatchProgress(line).value.mem, inner, MatchProgress(line).value.peakmem, rest)
  {
    var r := MatchProgress(line).value;
    var d, e, k;
    d, e, k, rest := ProgressParts(line);
    fra, inner := line[4..d], line[e + 2..k];
    AssembleProgress(line, d, e, k, r.mem, r.peakmem, rest);
  }

  /** The positions MatchProgress found: the end of the frame digits, of the memory figure and of the lazy text. */
  lemma ProgressParts(line: string) returns (d: nat, e: nat, k: nat, rest: string)
    requires MatchProgress(line).Some?
    ensures 4 < d && d + 5 <= e && e + 2 <= k <= |line|
    ensures line[..4] == "Fra:" && line[d..d + 5] == " Mem:" && line[e..e + 2] == " ("
    ensures DigitRun(line[4..d]) && DigitsValue(line[4..d]) == MatchProgress(line).value.fra
    ensures line[d + 5..e] == MatchProgress(line).value.mem && '\n' !in line[e + 2..k]
    ensures line[k..] == ", Peak " + (MatchProgress(line).value.peakmem + (")" + rest))
  {
    d, e := ProgressHead(line);
    k, rest := PeakParts(line, e + 2, MatchProgress(line).value.peakmem);
  }

  /** Where the search for the peak figure from q stopped, on the same line, and what it left after the peak. */
  lemma PeakParts(s: string, q: nat, peak: string) returns (k: nat, rest: string)
    requires q <= |s| && FindPeak(s, q) == Some(peak)
    ensures q <= k <= |s| && '\n' !in s[q..k]
    ensures s[k..] == ", Peak " + (peak + (")" + rest))
  {
    k := FindPeakWhere(s, q);
    rest := PeakAtShape(s, k);
    NoNewlineIn(s, q, k);
  }

  /** The frame number and the memory figure MatchProgress read, and where they end. */
  lemma ProgressHead(line: string) returns (d: nat, e: nat)
    requires MatchProgress(line).Some?
    ensures 4 < d && d + 5 <= e && e + 2 <= |line|
    ensures line[..4] == "Fra:" && line[d..d + 5] == " Mem:" && line[e..e + 2] == " ("
    ensures DigitRun(line[4..d]) && DigitsValue(line[4..d]) == MatchProgress(line).value.fra
    ensures line[d + 5..e] == MatchProgress(line).value.mem && FindPeak(line, e + 2) == Some(MatchProgress(line).value.peakmem)
  {
    d := DigitEnd(line, 4);
    e := NonBlankEnd(line, d + 5);
    RunDigits(line, 4, d);
    assert line[..4] == line[0..4];
  }

  lemma NoNewlineIn(s: string, lo: nat, hi: nat)
    requires lo <= hi <= |s| && forall m :: lo <= m < hi ==> s[m] != '\n'
    ensures '\n' !in s[lo..hi]
  {
    forall i | 0 <= i < hi - lo ensures s[lo..hi][i] != '\n' { assert s[lo..hi][i] == s[lo + i]; }
  }

  /** A line cut at those positions is the progress line of its pieces. */
  lemma AssembleProgress(line: string, d: nat, e: nat, k: nat, mem: string, peak: string, rest: string)
    requires 4 < d && d + 5 <= e && e + 2 <= k <= |line|
    requires line[..4] == "Fra:" && line[d..d + 5] == " Mem:" && line[e..e + 2] == " ("
    requires line[d + 5..e] == mem && line[k..] == ", Peak " + (peak + (")" + rest))
    ensures line == ProgressLine(line[4..d], mem, line[e + 2..k], peak, rest)
  {
    var fra, inner := line[4..d], line[e + 2..k];
    SliceJoin(line, e + 2, k);
    assert line[e + 2..] == PeakText(inner, peak, rest);
    SliceJoin(line, e, e + 2);
    assert line[e..] == " (" + PeakText(inner, peak, rest);
    SliceJoin(line, d + 5, e);
    assert line[d + 5..] == mem + (" (" + PeakText(inner, peak, rest));
    SliceJoin(line, d, d + 5);
    assert line[d..] == " Mem:" + (mem + (" (" + PeakText(inner, peak, rest)));
    SliceJoin(line, 4, d);
    assert line[4..] == fra + (" Mem:" + (mem + (" (" + PeakText(inner, peak, rest))));
    SliceJoin(line, 0, 4);
    assert line == line[0..];
  }

  /** Leading zeros of the frame number are dropped: "Fra:003" is frame 3. */
  lemma FrameLeadingZeros()
    ensures MatchProgress(ProgressLine("003", "17.52G", "0.00M", "33G", " | Time:03:00:04.17 ")) == Some(Progress(3, "17.52G", "33G"))
  {
    ProgressLineParses("003", "17.52G", "0.00M", "33G", " | Time:03:00:04.17 ");
    assert DigitsValue("003") == 3 by {
      assert "003"[..2] == "00" && "00"[..1] == "0" && "0"[..0] == "";
    }
  }

  // ---------------------------------------------------------------- process_line

  const SyncSubstrings: seq<string> := ["| Synchronizing object |", " | Syncing "]

  /** _is_sync_line(line). */
  predicate IsSyncLine(line: string)
  {
    Contains(line, SyncSubstrings[0]) || Contains(line, SyncSubstrings[1])
  }

  /** `' not found` on the same line from j on, after the greedy `.*`. */
  predicate NotFoundOnLine(s: string, j: nat)
    requires j <= |s|
    decreases |s| - j
  {
    At(s, j, "' not found") || (j < |s| && s[j] != '\n' && NotFoundOnLine(s, j + 1))
  }

  /** re_path_not_found.search(line) from i on. */
  predicate PathNotFound(s: string, i: nat)
    requires i <= |s|
    decreases |s| - i
  {
    (At(s, i, "Warning: Path '") && NotFoundOnLine(s, i + 15)) || (i < |s| && PathNotFound(s, i + 1))
  }

  /** The last quote before the end of the line, from j on (what `.*'` backs off to). */
  function LastQuoteOnLine(s: string, j: nat): (r: Option<nat>)
    requires j <= |s|
    ensures r.Some? ==> j <= r.value < |s| && s[r.value] == '\''
    decreases |s| - j
  {
    if j == |s| || s[j] == '\n' then None
    else match LastQuoteOnLine(s, j + 1)
      case Some(m) => Some(m)
      case None => if s[j] == '\'' then Some(j) else None
  }

  /** re_file_saved.search(line): the file name of the leftmost `Saved: '…'`. */
  function SavedFile(s: string, i: nat): Option<string>
    requires i <= |s|
    decreases |s| - i
  {
    if At(s, i, "Saved: '") && LastQuoteOnLine(s, i + 8).Some? then Some(s[i + 8..LastQuoteOnLine(s, i + 8).value])
    else if i < |s| then SavedFile(s, i + 1)
    else None
  }

  /** An activity update process_line sends: the raw line, or the progress summary of a render line. */
  datatype ActivityNote = LineActivity(text: string) | ProgressActivity(info: RenderInfo)

  /** What processing one line does: activity updates, produced outputs and the log line returned. */
  datatype LineEffects = LineEffects(activities: seq<ActivityNote>, produced: seq<string>, log: Option<string>)

  const SyncNote := "  (NOTE FROM WORKER: only logging this line; skipping the rest of the Synchronizing Objects lines)"

  function KeyError(key: string): Exception { Exception("KeyError", Repr(key)) }

  /** process_line(line) of BlenderRenderCommand for a given seen_synchronizing_line flag: its effects and the new flag. */
  function ProcessLineSpec(seen: bool, pid: int, line: string): (r: (Result<LineEffects>, bool))
    ensures r.1 == (seen || IsSyncLine(line))
    ensures IsSyncLine(line) && seen ==> r.0.Ok? && r.0.value.log.None?
    ensures IsSyncLine(line) && !seen ==> r.0.Ok? && r.0.value.log == Some("> " + line + SyncNote)
    ensures !IsSyncLine(line) && r.0.Ok? ==> r.0.value.log == Some("pid=" + IntToString(pid) + " > " + line)
    ensures r.0.Raise? ==> !IsSyncLine(line) && ParseRenderLine(line).Some? && ParseRenderLine(line).value.remainingSec.Some?
  {
    var warn := if Contains(line, "Warning: Unable to open") || PathNotFound(line, 0) then [LineActivity(line)] else [];
    if IsSyncLine(line) then
      if seen then (Ok(LineEffects(warn, [], None)), true)
      else (Ok(LineEffects(warn, [], Some("> " + line + SyncNote))), true)
    else
      var info := ParseRenderLine(line);
      var progress: Result<seq<ActivityNote>> :=
        if info.None? then Ok([])
        else if info.value.remainingSec.None? then Ok([LineActivity(line)])
        else if info.value.timeSec.None? then Raise(KeyError("time_sec"))
        else if info.value.status.None? then Raise(KeyError("status"))
        else Ok([ProgressActivity(info.value)]);
      match progress
      case Raise(ex) => (Raise(ex), seen)
      case Ok(updates) =>
        var saved := SavedFile(line, 0);
        (Ok(LineEffects(warn + updates, if saved.Some? then [saved.value] else [], Some("pid=" + IntToString(pid) + " > " + line))), seen)
  }

  /** The state of a running BlenderRenderCommand that process_line touches. */
  class LineFilter {
    const pid: int
    var seenSynchronizingLine: bool

    constructor (pid: int)
      ensures this.pid == pid && !seenSynchronizingLine
    {
      this.pid := pid;
      seenSynchronizingLine := false;
    }

    method ProcessLine(line: string) returns (r: Result<LineEffects>)
      modifies this
      ensures (r, seenSynchronizingLine) == ProcessLineSpec(old(seenSynchronizingLine), pid, line)
    {
      var warn := if Contains(line, "Warning: Unable to open") || PathNotFound(line, 0) then [LineActivity(line)] else [];
      if IsSyncLine(line) {
        if seenSynchronizingLine {
          return Ok(LineEffects(warn, [], None));
        }
        seenSynchronizingLine := true;
        return Ok(LineEffects(warn, [], Some("> " + line + SyncNote)));
      }
      var updates: seq<ActivityNote> := [];
      var info := ParseRenderLine(line);
      if info.Some? {
        if info.value.remainingSec.Some? {
          if info.value.timeSec.None? {
            return Raise(KeyError("time_sec"));
          }
          if info.value.status.None? {
            return Raise(KeyError("status"));
          }
          updates := [ProgressActivity(info.value)];
        } else {
          updates := [LineActivity(line)];
        }
      }
      var saved := SavedFile(line, 0);
      r := Ok(LineEffects(warn + updates, if saved.Some? then [saved.value] else [], Some("pid=" + IntToString(pid) + " > " + line)));
    }
  }

  /** The log lines a run of lines produces, starting from a given flag. */
  function LoggedLines(seen: bool, pid: int, lines: seq<string>): seq<Option<string>>
    decreases |lines|
  {
    if lines == [] then []
    else
      var step := ProcessLineSpec(seen, pid, lines[0]);
      [if step.0.Ok? then step.0.value.log else None] + LoggedLines(step.1, pid, lines[1..])
  }

  /** How many synchronizing lines of `lines` are logged. */
  function SyncLogged(seen: bool, pid: int, lines: seq<string>): nat
    decreases |lines|
  {
    if lines == [] then 0
    else
      var step := ProcessLineSpec(seen, pid, lines[0]);
      (if IsSyncLine(lines[0]) && step.0.Ok? && step.0.value.log.Some? then 1 else 0) + SyncLogged(step.1, pid, lines[1..])
  }

  predicate AnySync(lines: seq<string>)
  {
    exists k :: 0 <= k < |lines| && IsSyncLine(lines[k])
  }

  /** Of all synchronizing lines only the first is logged; none once one has been seen. */
  lemma {:induction false} OnlyFirstSyncLineLogged(seen: bool, pid: int, lines: seq<string>)
    ensures SyncLogged(seen, pid, lines) == if !seen && AnySync(lines) then 1 else 0
    decreases |lines|
  {
    if lines != [] {
      var step := ProcessLineSpec(seen, pid, lines[0]);
      OnlyFirstSyncLineLogged(step.1, pid, lines[1..]);
      if AnySync(lines[1..]) {
        var k :| 0 <= k < |lines[1..]| && IsSyncLine(lines[1..][k]);
        assert IsSyncLine(lines[k + 1]);
      }
      if AnySync(lines) && !IsSyncLine(lines[0]) {
        var k :| 0 <= k < |lines| && IsSyncLine(lines[k]);
        assert k > 0 && IsSyncLine(lines[1..][k - 1]);
      }
    }
  }
}
