# flamenco-worker in Dafny

A model of the decision logic of flamenco-worker, the render-farm worker that
fetches tasks from a Flamenco Manager, runs their commands (Blender renders,
file moves and copies, subprocesses) and reports status, activity and logs
back to the Manager through a persistent update queue.

The model covers the following:

- **Command layer** (`commands.dfy`, `blender.dfy`, `file_commands.dfy`):
  - the registry that `@command_executor` builds;
  - `AbstractCommand.run`, the worker calls it makes and its result;
  - `_setting` and every command's `validate` rule, including the subprocess PID-file check;
  - the Blender command line;
  - `parse_render_line` over the regular expressions it uses;
  - the "log only the first synchronizing line" filter;
  - `_timestamped_path`, `_unique_path` and the move, copy and remove commands, over a filesystem held as a map from paths to entries.
- **The older runner.py** (`runner.dfy`):
  - `TaskRunner.execute` and `abort_current_task`;
  - the older registry, validators and command line;
  - the older `MoveOutOfWayCommand` suffix rule.
- **Worker** (`worker.dfy`): a `FlamencoWorker` class with the status, the activity record, the queued log lines and the pending-push flags. It covers:
  - `register_task_update`, `register_log` and `push_to_manager`;
  - fetching a task and reporting its outcome;
  - `schedule_fetch_task`, `startup` with registration or sign-on, and `shutdown`;
  - starting and finishing a task run, `active_task_id`, `stop_current_task`, `detect_platform` and `generate_secret`.
- **Update queue** (`update_queue.dfy`): `TaskUpdateQueue` over a sequence of `(rowid, url, payload)` rows that stands for the SQLite table. It covers queueing, counting, unqueueing, and `flush` with its 409 rule and its 1001-row cap, along with `flush_and_catch` and `flush_and_report`.
- **Timing** (`timing.dfy`): `Timing` over an ordered list of `(name, duration)` items. It covers `checkpoint`, `record_duration`, `clear`, `+`, `+=` and `to_json_compat`.
- **Configuration** (`config.dfy`):
  - `check_config`;
  - the parser's `set`, `setvalue`, `erase` and `read`;
  - `merge_with_home_config`;
  - `load_config` with test mode and secret masking.
- **May-I-run** (`may_i_run.dfy`) and **documents** (`documents.dfy`): `one_iteration` and `may_i_run`, plus the `Activity` and `MayKeepRunningResponse` records with their defaults and validators.
- **Support** (`wrappers.dfy`, `text.dfy`, `values.dfy`, `files.dfy`, `shlex.dfy`):
  - Option and Result;
  - Python string operations;
  - Python values with `isinstance`, truthiness and `repr`;
  - POSIX rename and remove on the path map;
  - `shlex.split`.

Clocks, random choices, the platform name, Manager replies and file contents
are inputs to the operations. A Python exception is the `Raise` case of
`Result`, carrying the exception's class name and message.

Where the tests and the code disagree, the model follows the code:

- An empty PID file is deleted, and validation passes.
- A 404 from the Manager is not discarded: only a 409 is.
- `--python` is never added to the Blender command line.
- runner.py logs lines with a bare `> ` prefix.
- `stop_current_task` takes no task id.
- `documents.MayKeepRunningResponse` has no `status_requested` field. The code as written is modelled, and so is a reading with that field optional (see Findings).

## Model

| member | source | states |
|---|---|---|
| Commands.Registry.Register | flamenco_worker/commands.py:49-59 | A name already taken is an AssertionError that leaves the registry as it was. Otherwise exactly that name is added, with `command_name` set to it, and every handler's name keeps matching its key. |
| Commands.Registry.constructor | flamenco_worker/commands.py:23 | The registry starts empty. |
| Commands.RegisterAll | flamenco_worker/commands.py:23-59 | Running the decorators in order over an empty registry gives exactly the registry of the names when they are distinct, and an AssertionError otherwise. |
| Commands.CommandNamesDistinct | flamenco_worker/commands.py:197-777 | The eleven command names commands.py registers are distinct, so importing it never fails. |
| Commands.Setting | flamenco_worker/commands.py:177-194 | A missing required key gives `Missing "<key>"` and nothing else does. A missing optional key, or an optional None, gives (None, None). A present value of the wrong type, including a required None, gives the type message. Otherwise the result is the value itself. |
| Commands.SettingAccepts | flamenco_worker/commands.py:177-194 | `_setting` reports no error exactly when a required key holds a value of the type, or an optional key is absent, None or of the type. |
| Commands.EchoValidate | flamenco_worker/commands.py:199-206 | Passes exactly when `message` is present and a str. A missing message gives `Missing "message"`. It never raises. |
| Commands.LogALotValidate | flamenco_worker/commands.py:214-219 | Passes exactly when `lines` is absent, an int (bool included) or a float. |
| Commands.SleepValidate | flamenco_worker/commands.py:231-238 | Passes exactly when `time_in_seconds` is present and an int or a float. |
| Commands.MoveOutOfWayValidate | flamenco_worker/commands.py:286-293 | Passes exactly when `src` is present and a str. |
| Commands.MoveToFinalValidate | flamenco_worker/commands.py:316-319 | Passes exactly when both `src` and `dest` are str settings. A bad `src` reports `src`'s error first. |
| Commands.CopyFileValidate | flamenco_worker/commands.py:350-360 | Passes exactly when `src` and `dest` are non-empty strs. An empty `src` gives `src may not be empty`. |
| Commands.RemoveTreeValidate | flamenco_worker/commands.py:387-392 | Passes exactly when `path` is a non-empty str. An empty one gives `'path' may not be empty`. |
| Commands.CheckPidFile | flamenco_worker/commands.py:419-453 | Passes exactly when no PID file is configured or present, or when the file is empty or names a dead PID. An empty or stale file is deleted and nothing else changes. A live PID gives `Subprocess from <file> is still running: <process>`. Text int() cannot read raises its `invalid literal` ValueError. A negative PID raises psutil's ValueError `pid must be a positive integer (got <pid>)`. |
| Commands.NegativePidCrashes | flamenco_worker/commands.py:443-446 | A PID file holding `-5` parses, and psutil refuses it with `pid must be a positive integer (got -5)`. |
| Commands.ExecValidate | flamenco_worker/commands.py:567-577 | Passes exactly when `cmd` is a non-empty str and the PID check passes. The PID check is reached only after `cmd` is accepted. |
| Commands.CheckBlenderCmd | flamenco_worker/commands.py:614-620 | `blender_cmd` is accepted exactly when it is a str whose first shlex token exists. It is then replaced by its token list. An empty split raises IndexError and a bad quote raises ValueError. |
| Commands.BlenderRenderValidate | flamenco_worker/commands.py:613-651 | Passes exactly when every Blender setting is acceptable and the PID check passes. The filesystem changes only by the render_output mkdir and the PID check. |
| Commands.OutputMkdir | flamenco_worker/commands.py:622-629 | A configured mkdir error for the directory raises it. Otherwise it is `mkdir(parents=True, exist_ok=True)` of the parent of render_output. A missing directory with a file in the way of its parent, at any height, raises NotADirectoryError naming that directory. |
| Commands.OutputDirMade | flamenco_worker/commands.py:622-629 | The mkdir keeps every entry and adds only directories, each inside a directory. When it succeeds, the parent of render_output is a directory. |
| Commands.CheckRenderOutput | flamenco_worker/commands.py:622-629 | Passes exactly when render_output is absent, None or a str, and its mkdir succeeds when the str is non-empty. A failed mkdir gives its `cannot be created` message. The new filesystem is the mkdir's. |
| Commands.BlenderOutputValidate | flamenco_worker/commands.py:622-651 | After the mkdir, frames, render_format and filepath are checked, and filepath must exist in the filesystem the mkdir left. Then the PID check runs. It passes exactly when all of these do. |
| Commands.OutputMkdirFails | flamenco_worker/commands.py:622-629 | A failed mkdir fails validation with its message and leaves the filesystem as it was. |
| Commands.RenderOutputMkdirFails | flamenco_worker/commands.py:622-629 | With a usable blender_cmd, a truthy render_output whose directory cannot be created fails with `"render_output": dir <dir> cannot be created: <error>`. |
| Commands.BlenderRenderProgressiveValidate | flamenco_worker/commands.py:752-764 | Passes exactly when the Blender checks pass and both chunk settings are positive ints. A value below 1 gives `"<key>" must be a positive integer`, for the first such key. |
| Commands.CheckInput | flamenco_worker/commands.py:789-800 | An input is accepted exactly when it is a str without `"` that exists. A quote gives the "Double quotes are not allowed" message. |
| Commands.MergeProgressiveRendersValidate | flamenco_worker/commands.py:778-811 | Passes exactly when blender_cmd is usable, the inputs are quote-free and exist, output is quote-free, the weights are ints and the PID check passes. |
| Commands.Input1QuoteFails | flamenco_worker/commands.py:789-794 | With a usable blender_cmd, a double quote in input1 fails with the "Double quotes are not allowed" message for input1. |
| Commands.Validate | flamenco_worker/commands.py:166-175 | A command without a subprocess keeps the filesystem and its settings and never raises. |
| Commands.Run | flamenco_worker/commands.py:95-157 | Executes exactly when validation passes. A failed validation returns False and sends status failed with "Invalid settings". Otherwise progress 0 comes first and no call sets a status. Success sends progress 100 and returns True. An execution error returns False with an "Error executing" activity. A cancellation propagates. |
| Blender.BuildBlenderCmd | flamenco_worker/commands.py:659-675 | The command line is the blender_cmd tokens, then `--enable-autoexec -noaudio --background`, then filepath, then option/value pairs. |
| Blender.BlenderCmdOptions | flamenco_worker/commands.py:659-675 | After the fixed part, each optional setting's value follows its flag exactly when the setting is truthy. The flags appear in the order `--python-expr`, `--render-output`, `--render-format` (from `format`), `--render-frame`. |
| Blender.ValidatedIsExecutable | flamenco_worker/commands.py:613-651 | Settings that validation accepted have blender_cmd as a list and a filepath, so the command line can be built. |
| Blender.ChunkArgs | flamenco_worker/commands.py:769-773 | The five appended arguments are `--`, the two chunk flags and the `str()` of each chunk number, which reads back as that number. |
| Blender.BuildProgressiveCmd | flamenco_worker/commands.py:766-773 | The plain command line comes first, unchanged. After it come `--` and the two chunk flags, each followed by text that reads back as its chunk number. |
| Blender.BuildBlenderCmdExample | tests/test_commands_blender_render.py:86-155 | The CLI-arguments example gives the command line the test expects: format and frames are present, and python_expr and render_output are absent. |
| Blender.MatchProgress | flamenco_worker/commands.py:603-604 | A match needs a line starting with `Fra:`, a non-empty memory figure without blanks and a peak figure. |
| Blender.ParseRenderLine | flamenco_worker/commands.py:677-707 | Gives a result exactly when the progress expression matches. Its frame, memory and peak come from that match. |
| Blender.MatchProgressShape | flamenco_worker/commands.py:603-604 | Every matched line is `Fra:<digits> Mem:<mem> (<inner>, Peak <peak>)<rest>`, with the frame the value of the digits and no newline in inner. This is the converse of ProgressLineParses. |
| Blender.ProgressLineParses | flamenco_worker/commands.py:603-604 | A line `Fra:<digits> Mem:<mem> (<inner>, Peak <peak>)<rest>` parses to the value of the digits, `mem` and `peak`. |
| Blender.FrameLeadingZeros | flamenco_worker/commands.py:686 | `Fra:003` is frame 3, because leading zeros are dropped by `int()`. |
| Blender.ClockTextParses | flamenco_worker/commands.py:605-608 | Printed clock text `[<h>:]<m>:<s>.<c> ` reads back as its digit values, with hours 0 when there are none. |
| Blender.ClockAtShape | flamenco_worker/commands.py:605-608 | Every clock that is read is printed clock text: its digit runs and what follows. This is the converse of ClockTextParses. |
| Blender.SearchClockFinds | flamenco_worker/commands.py:688-700 | The first place where the tag is followed by a clock is where `re.search` stops, and it gives that clock. |
| Blender.SearchClockStops | flamenco_worker/commands.py:688-700 | A search that finds a clock stopped at a tag followed by that clock, with no earlier such place. |
| Blender.SearchClockText | flamenco_worker/commands.py:688-700 | A tag and printed clock text, with no earlier match, make the search give that clock's digit values. |
| Blender.RenderLineTime | flamenco_worker/commands.py:688-693 | A progress line whose first clocked `\| Time:` has the clock text h, m, s, c gets time_sec 3600·h + 60·m + s + c/100. |
| Blender.RenderLineRemaining | flamenco_worker/commands.py:695-700 | The same for remaining_sec and the first clocked `\| Remaining:`. |
| Blender.RenderLineTimeFrom | flamenco_worker/commands.py:688-693 | A time_sec that is present is the value of the clock after the first `\| Time:` that has one. |
| Blender.RenderLineRemainingFrom | flamenco_worker/commands.py:695-700 | A remaining_sec that is present is the value of the clock after the first `\| Remaining:` that has one. |
| Blender.StatusOf | flamenco_worker/commands.py:609 | A status is non-empty and contains no `\|`. The line is some text, `\| `, then the status. |
| Blender.StatusAfterLastBar | flamenco_worker/commands.py:702-704 | The status is the text after the last `\| `. |
| Blender.RenderLineStatus | flamenco_worker/commands.py:702-704 | A progress line ending in `\| <status>`, where status has no `\|`, gets that status. |
| Blender.ProcessLineSpec | flamenco_worker/commands.py:709-747 | The flag becomes set once a synchronizing line is seen. The first synchronizing line is logged as `> <line>` plus the note, and a later one is not logged. Any other line that does not raise is logged as `pid=<pid> > <line>`. An exception comes only from formatting a progress line with a remaining time. |
| Blender.LineFilter.ProcessLine | flamenco_worker/commands.py:713-747 | The method's result and new `seen_synchronizing_line` flag are those of ProcessLineSpec. |
| Blender.LineFilter.constructor | flamenco_worker/commands.py:597 | A new command has not yet seen a synchronizing line. |
| Blender.OnlyFirstSyncLineLogged | flamenco_worker/commands.py:596-597 | Over any sequence of lines, exactly one synchronizing line is logged when one occurs and none had been seen before. Otherwise none is. |
| FileCommands.FilenameFriendly | flamenco_worker/commands.py:257 | The timestamp has no `T` and no `:` left. Every character is `_` or one of the original's other characters. |
| FileCommands.FilenameFriendlyIso | flamenco_worker/commands.py:257 | `<date>T<hh>:<mm>:<ss>` becomes `<date>_<hh><mm><ss>`. |
| FileCommands.TimestampedPath | flamenco_worker/commands.py:247-260 | The result is a sibling other than the path. Its name is the old name, `-`, and a stamp with no `T` and no `:`. |
| FileCommands.TimestampedPathIso | flamenco_worker/commands.py:247-260 | A modification time `<date>T<hh>:<mm>:<ss>` gives the name `<name>-<date>_<hh><mm><ss>`. |
| FileCommands.TildeNumberOf | flamenco_worker/commands.py:266-279 | `<name>~<n>` reads back as suffix number n. |
| FileCommands.UniqueTarget | flamenco_worker/commands.py:263-281 | The path `_unique_path` returns is a sibling that is not in use and differs from the input. |
| FileCommands.UniqueTargetOf | flamenco_worker/commands.py:263-281 | The result is `<name>~<max+1>`, where max is the largest `~N` suffix among the siblings, counting from 0. |
| FileCommands.UniquePath | flamenco_worker/commands.py:263-281 | The loop over the siblings returns UniqueTarget, one past the largest suffix in use. |
| FileCommands.UniqueTargetAfter | tests/test_runner_move_out_of_way.py:62-97 | Siblings `~n` and `~m`, with n <= m and gaps allowed, make the unique path `~(m+1)`. |
| FileCommands.BackupPath | flamenco_worker/commands.py:302-306 | The backup path, timestamped and made unique when taken, stays in the same directory and is never in use. |
| FileCommands.Backup | flamenco_worker/commands.py:302-306 | Computed step by step, the backup path is BackupPath. |
| FileCommands.MoveOutOfWay | flamenco_worker/commands.py:295-311 | A missing src changes nothing and succeeds, logging "does not exist". Otherwise src is renamed to its backup path, logging the move. |
| FileCommands.MoveOutOfWayKeepsAll | flamenco_worker/commands.py:295-311 | Moving a proper path out of the way succeeds. Its contents reappear under the fresh backup path, src is gone, and everything else is kept. |
| FileCommands.MoveToFinal | flamenco_worker/commands.py:321-345 | A missing src changes nothing. An existing dest is first moved to its backup path. Then src is moved to dest, with every error of Path.rename, including FileNotFoundError when dest's directory is missing. The logs follow each move. |
| FileCommands.MoveToFinalKeepsOldDest | tests/test_runner_move_to_final.py:28-94 | With unrelated src and dest, dest ends up holding what src held and src is gone. The old dest survives at its backup path, and everything else is kept. |
| FileCommands.MoveToFinalOntoItself | flamenco_worker/commands.py:321-345 | When src equals dest, dest is moved away and the second rename raises FileNotFoundError. |
| FileCommands.CopyFile | flamenco_worker/commands.py:362-382 | A missing src raises CommandExecutionError and changes nothing. A missing parent directory is created with all its missing ancestors, and a failed mkdir raises its error: a file in the way at any height gives NotADirectoryError naming dest's parent. The copy itself has CopyOutcome's result and filesystem, and the reported path is dest. Every entry stays inside a directory. The logs name the copy. |
| Files.CopyOutcome | flamenco_worker/commands.py:381 | shutil.copy succeeds exactly when the target differs from src, src is a file, the target is not a directory and its parent is one. The target is dest/<name> when dest is a directory. A missing src raises FileNotFoundError, even when the target is src itself; an existing target equal to src raises SameFileError; a directory target raises IsADirectoryError; a file as the target's parent raises NotADirectoryError. An error changes nothing; a success writes only the target. |
| Files.CopyKeepsRooted | flamenco_worker/commands.py:381 | A copy never writes over a directory or below a file, so every entry stays inside a directory. |
| Files.GrownKeepsRooted | flamenco_worker/commands.py:379 | mkdir(parents=True) keeps every entry inside a directory. |
| Files.CopyIntoOwnDirectory | flamenco_worker/commands.py:381 | Copying /a/f into /a raises SameFileError and changes nothing. |
| Files.CopyOntoDirectory | flamenco_worker/commands.py:381 | Copying the file /f into /a, where /a/f is a directory, raises IsADirectoryError and changes nothing. |
| Files.CopyBelowFile | flamenco_worker/commands.py:381 | Copying /f to /a/g, where /a is a file, raises NotADirectoryError and changes nothing. |
| FileCommands.RemoveTree | flamenco_worker/commands.py:394-410 | A missing path changes nothing. Otherwise exactly the path and everything below it are removed. |
| Files.RenameOutcome | flamenco_worker/commands.py:311 | Path.rename succeeds exactly when src exists, the directory of dst is a directory and dst is not below src. A missing src or directory raises FileNotFoundError, a file as the directory raises NotADirectoryError, and moving a directory into itself raises OSError. A failure changes nothing. |
| Files.FileSystem.Rename | flamenco_worker/commands.py:311 | The entries after a rename are RenameOutcome's. |
| Files.MovedKeeps | flamenco_worker/commands.py:311 | A rename loses nothing except what lay at or below the target. |
| Files.FileSystem.RemoveTree | flamenco_worker/commands.py:407-410 | Exactly the root and what lies below it are removed. |
| Files.MkdirOne | flamenco_worker/commands.py:379 | One mkdir succeeds exactly when the path is missing and its parent is a directory, or when it already is a directory and exist_ok is set. Only the new directory is added. When a file stands in the way of the parent, at any height, the error is NotADirectoryError naming the path itself. |
| Files.MakeDirsGrows | flamenco_worker/commands.py:379 | mkdir(parents=True) keeps every entry and adds only directories, each inside a directory, ending with the path as a directory. An existing path fails with FileExistsError unless exist_ok lets a directory through. A missing path with a file in the way of its parent fails with NotADirectoryError naming the path itself, without creating anything. |
| Files.MakeDirsBelowFileAncestor | flamenco_worker/commands.py:379 | With `/a` a file, `mkdir('/a/b/c', parents=True)` raises `[Errno 20] Not a directory: '/a/b/c'`. |
| Files.MakeDirsInDirectory | flamenco_worker/commands.py:379 | A missing directory inside an existing one is created, and nothing else is. |
| Files.MakeDirsIdempotent | flamenco_worker/commands.py:379 | Once the mkdir succeeded, doing it again with exist_ok=True changes nothing. |
| Files.ParentNotUnder | flamenco_worker/commands.py:311 | The parent of a proper path does not lie at or below it. |
| Shlex.SplitJoin | flamenco_worker/commands.py:618 | Splitting plain words joined by single spaces gives back the words. |
| Shlex.SplitQuotedExample | flamenco_worker/commands.py:618 | A double-quoted part joins the surrounding word without its quotes. |
| Shlex.SplitUnclosed | flamenco_worker/commands.py:618 | An unclosed quote raises ValueError("No closing quotation"). |
| Shlex.Lex | flamenco_worker/commands.py:618 | The tokens found so far are a prefix of the result. |
| Runner.LegacyCommandNamesDistinct | flamenco_worker/runner.py:245-255 | The command names runner.py registers are distinct. |
| Runner.LegacyExecValidate | flamenco_worker/runner.py:424-433 | Passes exactly when `cmd` is a non-empty str. There is no PID check. |
| Runner.LegacyExecAgrees | flamenco_worker/runner.py:424-433 | With no PID file configured, the two exec validators agree. |
| Runner.LegacyBlenderRenderValidate | flamenco_worker/runner.py:461-495 | Accepts the same settings as commands.py, but checks filepath right after blender_cmd and before the mkdir. The filesystem changes only by the render_output mkdir, made once filepath exists. |
| Runner.LegacyOutputValidate | flamenco_worker/runner.py:473-495 | Passes exactly when filepath exists first and the render_output mkdir then succeeds. A missing filepath changes nothing. |
| Runner.LegacyOutputIgnoresBlenderCmd | flamenco_worker/runner.py:473-495 | Replacing blender_cmd by its tokens changes nothing in the filepath and render_output checks. |
| Runner.LegacyBlenderAgrees | flamenco_worker/runner.py:461-495 | With no PID file configured, runner.py accepts only what commands.py accepts, and leaves the same filesystem. commands.py's acceptance carries over when filepath already exists. |
| Runner.FilepathMadeByRenderOutput | flamenco_worker/runner.py:473-486 | Render output `/x/y/frame` with filepath `/x/y` on an empty filesystem: commands.py creates `/x/y` and accepts, while runner.py rejects the missing filepath. |
| Runner.LegacyProgressiveValidate | flamenco_worker/runner.py:579-591 | The Blender checks plus positive chunk ints. The first bad chunk setting is reported. |
| Runner.LegacyMergeValidate | flamenco_worker/runner.py:605-638 | Passes exactly when the merge settings are acceptable: no `"` in input1, input2 or output, and int weights. It has no PID check. |
| Runner.LegacyInput1QuoteFails | flamenco_worker/runner.py:616-621 | As in commands.py, a double quote in input1 fails with its message once blender_cmd is usable. |
| Runner.LegacyValidate | flamenco_worker/runner.py:214-223 | Only the Blender validators change the filesystem, and then only by the render_output mkdir. |
| Runner.LegacyBuildBlenderCmd | flamenco_worker/runner.py:503-518 | The command line is the tokens, then `--factory-startup`, the fixed arguments and filepath, then option/value pairs. |
| Runner.LegacyCmdOptions | flamenco_worker/runner.py:503-518 | Only render_output, format and frames follow their flags, when truthy and in that order. A Python expression never does. |
| Runner.LegacyProgressiveCmd | flamenco_worker/runner.py:593-601 | The older plain command line comes first, unchanged. After it come `--` and the two chunk flags, each followed by text that reads back as its chunk number. |
| Runner.LegacyProcessLine | flamenco_worker/runner.py:552-575 | A line is logged as `> <line>`, with no filter and no produced files. It raises exactly when a progress line's remaining time comes without a time or a status. |
| Runner.LegacyProcessLineAgrees | flamenco_worker/runner.py:552-575 | On a line that is not a synchronizing line, both versions send the same updates and fail alike. The newer log is `pid=<pid> ` plus the older one. |
| Runner.LegacyTimestampedPath | flamenco_worker/runner.py:313-315 | The result is a sibling other than the path. Its name is the old name, `-` and the exact ISO modification time. |
| Runner.LegacyStampKeepsColons | flamenco_worker/runner.py:313-315 | When the exact time has a `:`, the older backup name differs from the newer one, because it keeps the colons. |
| Runner.LastDashPart | flamenco_worker/runner.py:322 | The text after the last `-` holds no `-`. It is the whole name when there is none. |
| Runner.LegacyNumberOf | flamenco_worker/runner.py:322-327 | `<name>-<n>` reads back as n. |
| Runner.LegacyUniqueTarget | flamenco_worker/runner.py:317-329 | The older collision rule's path is a sibling that is not in use. |
| Runner.LegacyUniqueTargetOf | flamenco_worker/runner.py:317-329 | The result is `<name>-<max+1>`, where max is the largest integer after the last `-` among the matching siblings. |
| Runner.LegacyUniquePath | flamenco_worker/runner.py:317-329 | The suffix loop returns LegacyUniqueTarget. |
| Runner.LegacyBackupPath | flamenco_worker/runner.py:313-329 | The older backup path stays in the same directory and is never in use. |
| Runner.LegacyMoveOutOfWay | flamenco_worker/runner.py:302-334 | A missing src changes nothing. Otherwise src is renamed to the older backup path. |
| Runner.Resolve | flamenco_worker/runner.py:62-80 | A command resolves exactly when it has a non-empty str name, a known handler and dict settings. A missing name gives "no name", bad settings give "malformed settings", and a name with no handler gives "unknown command name", each as ValueError with the index and task id. A command that is not a dict raises AttributeError and an unhashable name raises TypeError. |
| Runner.Stop | flamenco_worker/runner.py:62-92 | A command that gives True succeeds. |
| Runner.RunFromSucceeds | flamenco_worker/runner.py:59-94 | The task returns True exactly when every command succeeds. |
| Runner.RunFromStops | flamenco_worker/runner.py:59-94 | A task that does not return True stops at its first unsuccessful command. All earlier ones succeeded, last_command_idx points at it, and the result is that command's exception or False. RunFromCurrent says which handler the run leaves as current. |
| Runner.RunFromLast | flamenco_worker/runner.py:60-85 | After a full run, last_command_idx is the last index and current_command is the last handler constructed. |
| Runner.RunFromCurrent | flamenco_worker/runner.py:60-107 | The handler a run leaves as current_command, and so the one abort_current_task aborts, is that of the last command started when it resolved. Otherwise it is the previous command's, or the handler held before the run. |
| Runner.TaskRunner.Execute | flamenco_worker/runner.py:54-94 | The result and the two fields are what RunFrom gives from command 0. |
| Runner.TaskRunner.AbortCurrentTask | flamenco_worker/runner.py:96-107 | It aborts current_command, which after Execute is the handler RunFromCurrent names. Nothing is aborted while no command of any run has resolved. |
| Worker.UpdateUrlInjective | flamenco_worker/worker.py:413 | Different task ids give different URLs. |
| Worker.PayloadContents | flamenco_worker/worker.py:393-406 | The payload holds the Activity fields plus `task_status`, and `log` exactly when lines were queued. `log` is their `\n` join. The Activity is rebuilt unchanged from the payload. |
| Worker.FetchRetryDelay | flamenco_worker/worker.py:306-323 | A 200 gives a task. A 204 retries after 5 s. A failed request or any other status retries after 10 s. |
| Worker.FinalReport | flamenco_worker/worker.py:336-368 | Success gives completed. Failure gives failed and cancellation gives canceled, both ignored when failures are acceptable. A crash always gives failed, with an "Uncaught exception" activity. |
| Worker.GenerateSecret | flamenco_worker/worker.py:503-513 | 64 characters, each an ASCII letter or digit. |
| Worker.EverySecretPossible | flamenco_worker/worker.py:503-513 | Every string of 64 ASCII letters and digits can be generated. |
| Worker.DetectPlatform | flamenco_worker/worker.py:516-532 | Returns the lower-cased name exactly when it is linux, windows or darwin. Otherwise raises OSError, with its own message for an empty name. |
| Worker.DetectPlatformIdempotent | flamenco_worker/worker.py:525-530 | A detected platform is detected as itself again. |
| Worker.PostResultIsFirstAccepted | flamenco_worker/worker.py:141-154 | With retries, a POST finishes exactly when some attempt is accepted, with the first accepted reply. |
| Worker.KeepPosting | flamenco_worker/worker.py:130-154 | Without retries, one attempt is made: a refusal raises UnableToRegisterError. With retries, it stops at the first accepted attempt after sleeping 30 s per refusal. |
| Worker.FlamencoWorker.constructor | flamenco_worker/worker.py:60-95 | A new worker has an empty activity, no status, no queued logs, no pending push and no fetch scheduled. |
| Worker.FlamencoWorker.PushToManager | flamenco_worker/worker.py:393-413 | Exactly one row is queued under the task URL with PayloadContents' payload. The logs are cleared. The activity clock moves, and the log clock moves only when logs were sent. No activity push stays pending, and the log push is cancelled only when logs were sent. |
| Worker.FlamencoWorker.PushToManagerAsWritten | flamenco_worker/worker.py:393-413 | As written: the state changes and the logs are cleared, then `queue(..., loop=...)` raises TypeError before anything is queued. |
| Worker.FlamencoWorker.RegisterTaskUpdate | flamenco_worker/worker.py:425-447 | The given fields overwrite the activity. A status of None is never a change and keeps the status. A changed status, or an activity push older than push_act_max_interval, pushes at once. Otherwise one push is left pending. Everything registered is pushed or pending. |
| Worker.FlamencoWorker.RegisterLog | flamenco_worker/worker.py:449-477 | The line is `<timestamp>: <entry>`. It pushes at once when more than push_log_max_entries lines are queued or the log interval has passed. Otherwise one push is left pending. Queued lines always have a push pending. |
| Worker.FlamencoWorker.DelayedPushAsWritten | flamenco_worker/worker.py:382-413 | At its time, a pending push is made even after shutdown, where the code only logs "not pushing". |
| Worker.FlamencoWorker.DelayedPush | flamenco_worker/worker.py:382-389 | The corrected delayed push is made unless shutdown is done, in which case nothing is queued. |
| Worker.FlamencoWorker.ScheduleFetchTask | flamenco_worker/worker.py:214-229 | A fetch is added unless shutdown is done. |
| Worker.FlamencoWorker.FetchTask | flamenco_worker/worker.py:292-332 | Without a task, it schedules FetchRetryDelay and changes nothing else. A 200 without `_id` raises KeyError and schedules nothing. A task is run: the task id is set and the worker ends idle. Registered state stays pushed or pending. |
| Worker.FlamencoWorker.StartTask | flamenco_worker/worker.py:326-337 | The task id is set and status active is registered. The execution task runs, so active_task_id gives the task id. |
| Worker.FlamencoWorker.FinishTask | flamenco_worker/worker.py:99-105 | Once the execution task is done, active_task_id gives None. A stop request turns the outcome into a cancellation, so the status becomes canceled, or stays active when failures are acceptable. |
| Worker.FlamencoWorker.ExecuteTask | flamenco_worker/worker.py:326-374 | Registers active, runs the task, and ends with the status FinalReport gives, or active when the report is None. A final status is already queued, and a crash's traceback is sent with it. A fetch after 3 s is scheduled unless failures are acceptable. |
| Worker.FlamencoWorker.ReportOutcome | flamenco_worker/worker.py:336-374 | From status active: the report's status is registered and so pushed at once, with a crash's traceback. The next fetch is scheduled unless failures are acceptable. |
| Worker.FlamencoWorker.Startup | flamenco_worker/worker.py:107-123 | An empty id or secret registers with a fresh secret and the detected platform. It saves the id and secret, overlaid on the home configuration, and sets auth. Otherwise it sets auth and signs on. It schedules a fetch right away on success and nothing on failure. |
| Worker.FlamencoWorker.ShutdownAsWritten | flamenco_worker/worker.py:250-282 | As written, with the corrected push: a pending push is made, then `flush_for_shutdown` raises AttributeError. Failures stay acceptable. |
| Worker.FlamencoWorker.Shutdown | flamenco_worker/worker.py:250-290 | A pending push is queued and the queue is flushed once. Everything registered was queued first, and failures are not acceptable afterwards. |
| Worker.FlamencoWorker.StopCurrentTask | flamenco_worker/worker.py:231-248 | A running task is asked to stop, and FinishTask then reports it as cancelled. With no running task only a warning is logged, and nothing changes. |
| Worker.IdleWorkerIsNotAsked | flamenco_worker/may_i_run.py:33-38 | A worker with no running task is never asked anything by may_i_run. |
| Worker.RunningWorkerIsAsked | flamenco_worker/may_i_run.py:33-45 | A worker running a task is asked by may_i_run. Status changes are applied, and stop_current_task follows exactly when the Manager refuses. An error answer is raised. |
| UpdateQueue.NextRowid | flamenco_worker/upstream_update_queue.py:62-63 | A new rowid is above every rowid in the table. |
| UpdateQueue.Enqueue | flamenco_worker/upstream_update_queue.py:53-67 | Exactly one row is appended, after all existing rows and with a larger rowid. The table stays ascending. |
| UpdateQueue.QueueIsFifo | flamenco_worker/upstream_update_queue.py:96-111 | Two updates queued in turn are read back in that order. |
| UpdateQueue.Without | flamenco_worker/upstream_update_queue.py:122-127 | After the delete, no row has that rowid. |
| UpdateQueue.WithoutFirst | flamenco_worker/upstream_update_queue.py:122-127 | Deleting the oldest row leaves the rest in order. |
| UpdateQueue.WithoutAscending | flamenco_worker/upstream_update_queue.py:122-127 | A delete keeps the table ascending and adds no row. |
| UpdateQueue.PostError | flamenco_worker/upstream_update_queue.py:144-153 | A row is unqueued exactly after a 409 or a status raise_for_status accepts. A failed request gives its exception. |
| UpdateQueue.Drain | flamenco_worker/upstream_update_queue.py:139-159 | A pass removes at least the rows already behind it and at most all of them. An error leaves at least one row. |
| UpdateQueue.DrainFacts | flamenco_worker/upstream_update_queue.py:139-159 | A pass removes a prefix of the rows in order, each after an accepted reply. It stops at the first rejected row, which stays, or after 1001 rows, or at the end. |
| UpdateQueue.ConflictIsDiscarded | flamenco_worker/upstream_update_queue.py:145-154 | A row answered 409 is removed without error, like an accepted one. |
| UpdateQueue.PassEnds | flamenco_worker/upstream_update_queue.py:161-176 | A pass without error returns True exactly when the queue was empty, leaving the rows it did not reach. |
| UpdateQueue.TaskUpdateQueue.constructor | flamenco_worker/upstream_update_queue.py:20-33 | A queue over a stored table holds its rows, not yet connected. |
| UpdateQueue.TaskUpdateQueue.Disconnect | flamenco_worker/upstream_update_queue.py:48-51 | The rows survive disconnecting, and the next use reconnects to them. |
| UpdateQueue.TaskUpdateQueue.Queue | flamenco_worker/upstream_update_queue.py:53-67 | The rows become Enqueue's, and the stuff-queued event is set. |
| UpdateQueue.TaskUpdateQueue.QueueSize | flamenco_worker/upstream_update_queue.py:113-120 | The count of rows, with nothing changed. |
| UpdateQueue.TaskUpdateQueue.Unqueue | flamenco_worker/upstream_update_queue.py:122-127 | The rows become Without's. |
| UpdateQueue.TaskUpdateQueue.Flush | flamenco_worker/upstream_update_queue.py:129-176 | Posts the rows oldest first and unqueues each accepted one. It leaves the rest in order and returns True iff the queue was empty. The event is cleared only then. |
| UpdateQueue.TaskUpdateQueue.FlushAndCatch | flamenco_worker/upstream_update_queue.py:197-214 | Flushes and never raises: an error means a backoff of BackoffTime. |
| UpdateQueue.TaskUpdateQueue.FlushAndReport | flamenco_worker/upstream_update_queue.py:178-195 | Flushes once, with errors only logged. |
| Timing.Timing.constructor | flamenco_worker/timing.py:11-19 | A new Timing holds the given events, with no open interval. |
| Timing.Timing.Clear | flamenco_worker/timing.py:21-22 | The same object's events become empty. |
| Timing.Timing.RecordDuration | flamenco_worker/timing.py:24-35 | The duration is recorded whether or not the body raised, and the body's outcome passes through. A name already present is an AssertionError. |
| Timing.Timing.Checkpoint | flamenco_worker/timing.py:37-54 | The previous interval is recorded only under a non-empty name, and a repeated name is an AssertionError. `checkpoint('')` closes without opening a new interval. |
| Timing.Timing.IAdd | flamenco_worker/timing.py:73-86 | Own events become the merge with the other's, in place. |
| Timing.Timing.Add | flamenco_worker/timing.py:60-71 | A fresh Timing over the merge, with both operands left as they were. |
| Timing.MergeKeys | flamenco_worker/timing.py:82-84 | After a merge, a's names come first in their order, then b's new names in theirs. |
| Timing.MergeDurations | flamenco_worker/timing.py:82-84 | A name in both operands has the sum of their durations. Any other name has its only one. |
| Timing.MergeDistinct | flamenco_worker/timing.py:82-84 | A merge gives a dict: no name twice. |
| Timing.StoreFind | flamenco_worker/timing.py:35 | After events[name] = d, name maps to d and every other name is unchanged. |
| Timing.ToJsonCompatFind | flamenco_worker/timing.py:96-101 | The plain dict holds every name with its duration. |
| Config.CheckConfig | flamenco_worker/config.py:144-160 | An empty manager_url is fine. Otherwise a leading quote, a missing `://` and a missing `http` start are rejected, in that order, each with its message. |
| Config.OverlayKeeps | flamenco_worker/config.py:70-71 | Options not set keep their values, and none is removed. |
| Config.OverlaySets | flamenco_worker/config.py:70-71 | A set key holds the value given for it last. |
| Config.MaskedHidesOnlySecret | flamenco_worker/config.py:126-127 | The shown copy differs only in a non-empty worker_secret, which becomes `-hidden-`. |
| Config.ReadInto | flamenco_worker/config.py:101 | Reading a file overrides the options it sets, keeps the rest, and skips a missing file. |
| Config.ConfigParser.Set | flamenco_worker/config.py:71 | The option, lower-cased, takes the value. |
| Config.ConfigParser.SetValue | flamenco_worker/config.py:50-51 | The option, lower-cased, takes the value. |
| Config.ConfigParser.WithDefaults | flamenco_worker/config.py:93-94 | The parser loaded for the worker starts with the default configuration. |
| Config.ConfigParser.Empty | flamenco_worker/config.py:66-67 | The parser for the home file starts with an empty section. |
| Config.ConfigParser.Erase | flamenco_worker/config.py:59-60 | The key stays, with the empty string as its value. |
| Config.ConfigParser.Read | flamenco_worker/config.py:101 | The section becomes ReadInto's. |
| Config.MergeWithHomeConfig | flamenco_worker/config.py:63-81 | What is written is the home configuration with exactly the given keys overwritten. |
| Config.Loaded | flamenco_worker/config.py:93-115 | The loaded section always has manager_url, task_types and worker_secret. Test mode sets task_types to `test-blender-render`. |
| Config.ReadConfigFiles | flamenco_worker/config.py:93-110 | Raises SystemExit(47) exactly when the given file, or without one the global file, is missing. Otherwise gives the defaults overlaid with the files read. |
| Config.LoadConfig | flamenco_worker/config.py:84-130 | Succeeds exactly when the files are found and check_config accepts the result. A missing file raises SystemExit(47), and a rejected manager_url raises check_config's SystemExit. A copy is shown exactly when requested and loading succeeded, masked, while the returned section is unmasked. |
| Documents.MakeActivity | flamenco_worker/documents.py:6-13 | Succeeds exactly when only Activity fields are given, activity is a str and the others are ints. Omitted fields take the defaults '', 0, 0, 0. |
| Documents.ActivityDictRoundTrip | flamenco_worker/worker.py:393 | `attr.asdict` gives exactly the four fields, and rebuilding from them gives the same Activity. |
| Documents.ApplyUpdate | flamenco_worker/worker.py:428-429 | Each given field is overwritten and each other field is kept. |
| Documents.ParseMayKeepRunning | flamenco_worker/documents.py:16-22 | Succeeds exactly when may_keep_running is present and a bool, reason is absent, None or a str, and no other key is given. |
| Documents.ParseMayKeepRunningReply | flamenco_worker/may_i_run.py:51-56 | The same, with an optional str status_requested. |
| Documents.ReplyExtendsResponse | flamenco_worker/may_i_run.py:51-56 | Without status_requested, both readings agree. |
| MayIRun.MayIRunAsWritten | flamenco_worker/may_i_run.py:47-59 | As written, only a permission returns a value. A refusal raises AttributeError. |
| MayIRun.MayIRun | flamenco_worker/may_i_run.py:47-59 | Returns exactly the may_keep_running flag. On a refusal with a requested status, it first asks for that status. |
| MayIRun.OneIteration | flamenco_worker/may_i_run.py:33-45 | Nothing happens without an active task. Otherwise the task is stopped exactly when may_keep_running is false, and a status change happens only on a refusal. |
| MayIRun.OneIterationAsWritten | flamenco_worker/may_i_run.py:33-45 | As written, the task is never stopped. |
| MayIRun.RefusalStopsOnlyWhenCorrected | flamenco_worker/may_i_run.py:53-56 | For `{"may_keep_running": false}`, the corrected reading stops the task, while the code as written raises AttributeError. |
| Text.NatToStringValue | flamenco_worker/commands.py:281 | `str(n)` reads back as n. |
| Text.LowerIdempotent | flamenco_worker/worker.py:525 | Lower-casing twice is lower-casing once. |

## Left out

- Asyncio: the event loop, futures, locks, the `work()` loops and `mainloop` are left out. A pending push or a scheduled fetch is a flag or a list entry, and the model never runs it by itself.
- Time: the clock is an integer input, in milliseconds for the push intervals and in seconds for the fetch delays. register_task_update and register_log each read it once, where the code reads it twice.
- The task runner's own updates while a task executes: a run is marked by its outcome only (Succeeded, Failed, Cancelled or a crash).
- Worker.FlamencoWorker.FetchTask: a non-str `_id`, the Manager's JSON, the hostname and the task types are not modelled.
- Worker.FlamencoWorker.Startup: the sign-on payload is not modelled, and neither is the JSON body of the registration request.
- Worker.FlamencoWorker.Shutdown: the cancellation of the fetch task, the runner abort and the sign-off POST, whose errors are ignored, are not modelled.
- Worker.FlamencoWorker.StopCurrentTask: the awaited `trunner.abort_current_task()` is not called from the worker. It is TaskRunner.AbortCurrentTask in the runner's own model. The cancellation of the execution task is a flag that FinishTask turns into a Cancelled outcome.
- register_log's `%` formatting with `fmt_args` is not modelled: the caller passes the formatted entry.
- `schedule_fetch_task`'s docstring says a queued fetch is cancelled, but the code does not cancel it. The model follows the code.
- `change_status`, which may_i_run calls, is not part of worker.py. It appears here as an effect only.
- output_produced, the `/output-produced` background POST, is not modelled.
- Subprocess execution and killing, with its readline timeouts, is not modelled. The PID file is read as given: an entry holding text.
- Real filesystem semantics are not modelled: stat, glob, rmtree, shutil.copy and mkdir act on a map from paths to entries. `_timestamped_path` takes the local ISO time as an input, already rounded.
- FileCommands.Siblings, Runner.LegacyCandidates: `glob(name + '~*')` and `glob(name + '*')` are matched as plain prefixes. A `*`, `?` or `[` inside the file's own name is not treated as a pattern character, as glob would.
- Floating point: durations and times are Dafny `real`. A float-valued setting is a separate value kind.
- Timing.Timing.Add, Timing.Timing.IAdd: both operands are Timing objects. The other operand of `+` and `+=` is typed Timing, so the model cannot express an operand of another type. For such an operand, `__add__` and `__iadd__` return NotImplemented and Python raises TypeError. `__getitem__` and `__setitem__` are not modelled.
- configparser is not modelled beyond options of one section: interpolation, file syntax, other sections and writing files are left out. Option names are lower-cased.
- Text.LowerIdempotent: lower-casing is ASCII only. Python's full Unicode lower() is not modelled.
- Shlex.SplitJoin: the round trip is stated only for plain words joined by single spaces. Other inputs are covered by the quoted and unclosed examples. Split itself follows shlex.split's defaults: POSIX mode, whitespace splitting and no comments, with `\"` and `\\` as the only escapes inside double quotes.
- The network and foreign libraries are left out: upstream.py, ssdp_discover.py, jwtauth.py, SQLite and pickle. The queue table is a sequence of rows, and a Manager reply is a function of the row.
- The connection flag stands for the database connection (`_connect_db`, `_disconnect_db`), and VACUUM is left out.
- Commands.BlenderRenderValidate: when filepath is missing, the code logs a warning, sleeps 5 s and looks again. The model has no clock that passes and no file that appears meanwhile, so it looks once.
- Documents.MakeActivity: the TypeError texts are shortened. The unexpected-keyword message leaves out the keyword's name, because Python names the first unknown keyword in call order and a map keeps no order. The instance_of messages leave out attrs' ending ` (got <value> that is a <class>).`, which needs Python's repr of the value.
- Documents.ParseMayKeepRunning: the TypeError texts are shortened in the same two ways as MakeActivity's: no keyword name, and no ` (got <value> that is a <class>).` ending.
- Timing.Timing.RecordDuration: the AssertionError text ends in `not expected in events`. Python formats the repr of the events dict there, and that repr holds float durations, which are not modelled.
- Timing.Timing.Checkpoint: the AssertionError text is shortened in the same way as RecordDuration's.
- Blender.MatchProgress: `\d` is matched as an ASCII digit only. Python's str patterns accept every Unicode decimal digit, so a progress line with other digits matches there and not in the model. The clock patterns of ParseRenderLine have the same restriction.
- Files.MakeDirs: a failed mkdir(parents=True) leaves no directories behind in the model. Python keeps the ancestors it had already created.
- Files.RenameOutcome: a rename onto an existing entry replaces it. POSIX raises IsADirectoryError for a file onto a directory, NotADirectoryError for a directory onto a file, and OSError for a directory onto a non-empty directory, and the model does not.
- FileCommands.MoveToFinal, FileCommands.MoveOutOfWay, FileCommands.RemoveTree, Runner.LegacyMoveOutOfWay: paths are looked up as recorded entries, so the implicit `.` and `/` count as missing there. For those two paths, Python's move_out_of_way raises ValueError from `with_name` (the name is empty), and remove_tree runs rmtree. The model logs that the path does not exist and changes nothing.
- FileCommands.CopyFile: shutil.copy is CopyOutcome over the map. The same-file test compares paths, without links or normalisation. Permission bits (copymode), special files and Python 3.8's rewording of an IsADirectoryError for a missing target directory are not modelled.
- Files.PathOf: paths are split at the last `/` only. `.`, `..` and doubled slashes are not normalised as pathlib does.
- Commands.LogALotValidate: floats are reals, so an infinite or NaN `lines` cannot be given. For those, `int()` raises OverflowError or ValueError.
- Text.ParseInt: `int()` is modelled for ASCII digits with an optional sign and surrounding whitespace. Digit separators `_` and non-ASCII digits are not modelled.
- Runner.ValueRepr: `%r` of a float, a list or a dict is written `<float>`, `<list>` or `<dict>`, not with Python's repr.
- Blender.ParseRenderLine: the second progress line of the tests, with non-ASCII text, is not stated as an example.
- Blender.ParseRenderLine: the other regular expressions of process_line are modelled for the activity updates and saved files they cause. The `Warning: Unable to open` activity update is included. Formatting of the activity text with Python's float repr is modelled only as raising or not.

## Findings

| source | as written | input that shows it | evidently intended | confidence | as-written member | corrected member |
|---|---|---|---|---|---|---|
| flamenco_worker/worker.py:413 | `queue(url, payload, loop=self.loop)`, but `TaskUpdateQueue.queue(self, url, payload)` takes no `loop` | any call of push_to_manager, for example the first register_task_update with a status | queue the payload | not executed | Worker.FlamencoWorker.PushToManagerAsWritten | Worker.FlamencoWorker.PushToManager |
| flamenco_worker/worker.py:387-388 | a delayed push after shutdown logs "not pushing changes" and pushes anyway | a pending activity push whose delay ends once shutdown is done | skip the push | not executed | Worker.FlamencoWorker.DelayedPushAsWritten | Worker.FlamencoWorker.DelayedPush |
| flamenco_worker/worker.py:282 | `self.tuqueue.flush_for_shutdown(...)`, a method TaskUpdateQueue does not have | any shutdown() | one last flush, as `flush_and_report` does | not executed | Worker.FlamencoWorker.ShutdownAsWritten | Worker.FlamencoWorker.Shutdown |
| flamenco_worker/may_i_run.py:56 | reads `status_requested`, which MayKeepRunningResponse lacks | the reply `{"may_keep_running": false}` | stop the task after an optional status change | not executed | MayIRun.OneIterationAsWritten | MayIRun.OneIteration |
