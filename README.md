# apebuild in Dafny

This project models apebuild. apebuild is a single-header incremental build
tool for C: `apebuild.h`, plus the `shift_args` helper of `include/example.h`.
A build script declares builders. Each builder has an output name, source
files, flags, and extra compile and link arguments. For each builder,
apebuild does the following:

- it decides from timestamps which objects are stale;
- it generates the `gcc` compile and link commands;
- it runs them one after another, stopping at the first failure.

Before any of that, the script rebuilds itself when its own binary is older
than its source. It then re-runs itself with the same arguments.

The constants are those of the Linux GCC C preset: compiler and linker
`gcc`, object suffix `.o`, source suffix `.c`, output directory `build/`,
and shared libraries named `lib<name>.so`.

What is modelled, and how:

- **The filesystem** is a value. It maps each path that `stat` can resolve
  to its kind and `st_mtime` (an integer). It also maps each directory that
  `opendir` can open to the names `readdir` lists (`filesystem.dfy`).
- **Processes** are a parameter `exec`. It gives the outcome of a command:
  `Exited(code)`, `Signaled` or `SpawnFailed` (a fork failure).
- **Renames** are a parameter `renameOk`. It says whether `rename(2)`
  succeeds for a pair of paths.
- **Pure logic is written as functions**: staleness, suffix test,
  object-file name, path join, and the command specifications.
- **Code that works step by step is written as methods with loops**: the
  growable array, rendering, command generation, running, the directory
  scans, and the self-rebuild. Each method is proved equal to its
  specification function.
- **Builders.** `ApeBuilder` is a class whose fields the declaration calls
  update in place. `Registry` is the global builder list. `APE_BUILDER`
  copies the builder into it by value, as the `Builder` datatype.
- **`shift_args`** is the class `ArgCursor`. Its fields are `argc` and the
  index that `*argv` points at.

Where the code differs from a tidier build tool, the model follows the code:

- `ape_run` stops at the first failing builder (`Process.RunInOrderSpec`,
  `Runner.FailingBuilderStopsBatch`).
- `APE_BUILDER` does not check that builder names are unique
  (`Declare.Registry.Declare`).
- The compile force test is `(flags >> 0) && 1`. So any set flag forces a
  compile, and the shared-library bit alone does too
  (`Commands.SharedBitForcesCompile`). The link test uses `& 1` and only
  looks at bit 0.
- All commands of a builder, the link decision included, are generated
  before any of them runs. After only `a.c` changes, `a.c` is recompiled but
  the binary is not relinked in the same run (`Runner.PartialChangeSkipsLink`).
- Quoting in the log line is triggered by a space only, not by other
  whitespace.
- `-l` arguments come before the objects on the link line.
- The recursive directory scan ignores the result of its descent into a
  subdirectory (`Scans.RecErrorIsLocal`).
- There is no watch loop. `APE_WATCH` is used by `apebuild.c:15` but is
  defined nowhere. There are no test or debug build types and no language
  tags.

## Model

| member | source | states |
|---|---|---|
| `DynArray.GrowForOne` | apebuild.h:223-228 | after the growth test of `ape_da_append` the capacity is 256 when it was 0, doubles when `count + 1 >= capacity`, is unchanged otherwise; it stays a reachable capacity and exceeds the count |
| `DynArray.GrowForMany` | apebuild.h:236-248 | `ape_da_append_many` grows only when `count + n > capacity`; the new capacity holds all `count + n` items, never shrinks, and is 256 or the first doubling that fits |
| `DynArray.DoubleUntil` | apebuild.h:242-244 | the doubling loop ends at a reachable capacity that holds the items, no larger than needed |
| `DynArray.DoubleReachable` | apebuild.h:226-228 | growing 0 to 256 or doubling keeps the capacity in the sequence 0, 256, 512, ... |
| `DynArray.ReachableIsPowerMultiple` | apebuild.h:221-244 | every non-zero capacity the arrays reach is a multiple of 256 and at least 256 |
| `DynArray.Vec.constructor` | apebuild.h:402 | a zero-initialised array `{ 0 }` has no items and capacity 0 |
| `DynArray.Vec.Append` | apebuild.h:223-234 | count grows by exactly one, `x` is last, earlier items are unchanged, the capacity follows `GrowForOne` and `count <= capacity` holds |
| `DynArray.Vec.AppendMany` | apebuild.h:236-252 | count grows by exactly n, the n items are copied in order after the old ones, the capacity follows `GrowForMany` and `count <= capacity` holds; `ape_cmd_append` (271-274) and `ape_sb_append_str` (256-261) are this call |
| `Paths.EndsWith` | apebuild.h:435-444 | `ape_endswith` is 0 when a pointer is NULL or the suffix is longer than the string |
| `Paths.EndsWithIffConcat` | apebuild.h:435-444 | `ape_endswith(s, suffix)` is 1 exactly when `s` is some string followed by `suffix` (both directions) |
| `Paths.EndsWithEmptyAndSelf` | apebuild.h:439-443 | the empty suffix always matches, and a string ends with itself |
| `Paths.ObjName` | apebuild.h:400-407 | `ape_objfile_name` is the source path followed by `.o`: two characters longer, the source as prefix, ending in `.o` |
| `Paths.ObjNameInjective` | apebuild.h:400-407 | distinct sources get distinct object files |
| `Paths.Join` | apebuild.h:556-560 | the joined entry path is longer than the directory path |
| `Paths.JoinShape` | apebuild.h:556-560 | the joined path is the directory, then `/` exactly when the directory does not already end in `/`, then the name |
| `Paths.JoinKeepsSuffix` | apebuild.h:554-560 | a joined path keeps the entry name's extension |
| `Staleness.NeedsRebuild` | apebuild.h:409-428 | `ape_needs_rebuild` returns only 0 or 1, and returns 1 when the output cannot be stat'ed |
| `Staleness.ScanInputs` | apebuild.h:416-427 | the input loop returns only 0 or 1 |
| `Staleness.NeedsRebuild1` | apebuild.h:430-433 | the one-input form returns only 0 or 1, so the `< 0` test at apebuild.h:144 never fires |
| `Staleness.ScanInputsSpec` | apebuild.h:416-427 | the input loop returns 1 exactly when some input cannot be stat'ed or is strictly newer than the output |
| `Staleness.NeedsRebuildSpec` | apebuild.h:409-428 | `ape_needs_rebuild` is 1 exactly when the output is missing, an input is missing, or an input is strictly newer, and 0 otherwise |
| `Staleness.MissingOutputIsStale` | apebuild.h:411-414 | a missing output is stale, even with no inputs |
| `Staleness.NoInputsIsFresh` | apebuild.h:416-427 | an existing output with no inputs is not stale |
| `Staleness.UnstatableInputIsStale` | apebuild.h:417-422 | an input that cannot be stat'ed forces a rebuild |
| `Staleness.EqualTimesAreFresh` | apebuild.h:423-425 | an input with the same mtime as the output is not stale |
| `Staleness.NeedsRebuild1Spec` | apebuild.h:430-433 | the one-input form is 1 exactly when the output or input is missing or the input is strictly newer |
| `Staleness.TouchMakesStale` | apebuild.h:423-425 | giving any one input an mtime later than the output's makes the output stale |
| `Staleness.StaleMonotonic` | apebuild.h:416-427 | adding inputs never turns a stale output fresh |
| `Staleness.NeedsRebuildIsAnyInput` | apebuild.h:409-433 | the many-input decision is 1 exactly when the output is missing or some single-input decision is 1 |
| `Process.RunCmdAsync` | apebuild.h:296-328 | an empty command gives `APE_INVALID_PROC` without spawning; a child exists only when fork succeeded, and its outcome is the command's |
| `Process.ProcWait` | apebuild.h:330-361 | `ape_proc_wait` is 1 exactly for a child that exited with status 0; invalid handles, signals and non-zero exits give 0 |
| `Process.CmdRunSync` | apebuild.h:363-369 | `ape_cmd_run_sync` succeeds exactly when the command is non-empty and exits with status 0 |
| `Process.RunInOrder` | apebuild.h:371-379 | the run-in-order loop shared by `ape_cmds_run` and `ape_run` never starts more items than it is given |
| `Process.RunInOrderSpec` | apebuild.h:630-640 | the run-in-order loop succeeds exactly when every item succeeds, and then ran all of them; on failure the last item it started failed, those before succeeded, and none after ran |
| `Process.CmdsRun` | apebuild.h:371-379 | the loop with its early return computes `RunInOrder` over `ape_cmd_run_sync`: its result and the number of commands started |
| `Process.CmdsRunSpec` | apebuild.h:371-379 | `ape_cmds_run` returns 1 exactly when every command is non-empty and exits with status 0; an empty list returns 1 |
| `Render.Word` | apebuild.h:286-292 | an argument containing a space is written between single quotes, any other argument as it is |
| `Render.NullPrefix` | apebuild.h:280-283 | rendering covers exactly the items before the first NULL |
| `Render.CmdRender` | apebuild.h:278-294 | `ape_cmd_render` appends to the existing builder, without clearing it, the non-NULL prefix joined by single spaces with quoted words |
| `Render.AppendArg` | apebuild.h:284-292 | one loop turn appends a space unless the argument is the first, then the argument, quoted exactly when it holds a space |
| `Render.RenderStep` | apebuild.h:284-292 | a space is written before every argument but the first |
| `Render.ParseRender` | apebuild.h:278-294 | for non-empty arguments without single quotes the log line reads back as exactly the arguments, so quoting keeps spaced arguments whole |
| `Render.RenderStopsAtNull` | apebuild.h:281-283 | nothing after a NULL item is rendered |
| `Commands.AppendEach` | apebuild.h:461-463 | the per-argument `ape_cmd_append` loops append the arguments in order |
| `Commands.CompileCommand` | apebuild.h:454-467 | a compile command, when there is one, starts with `gcc` and ends with `-o` and the source's object name |
| `Commands.GenBuildCommand` | apebuild.h:454-467 | `ape_gen_build_command` builds exactly `CompileCommand` |
| `Commands.CompileCommandSpec` | apebuild.h:454-467 | the compile command is empty exactly when the object is not stale with respect to the source and `flags` is 0; otherwise it is `gcc`, the arguments in order, then `-c src -o src.o` |
| `Commands.SharedBitForcesCompile` | apebuild.h:457-458 | the shared-library bit alone forces a compile |
| `Commands.ObjNames` | apebuild.h:473-476 | the object list has one object name per source, in order |
| `Commands.ObjFileNames` | apebuild.h:473-476 | the naming loop computes `ObjNames` |
| `Commands.LinkOutput` | apebuild.h:481-501 | the link output always lies under `build/` and is at least as long as `build/` plus the builder name |
| `Commands.OutputPath` | apebuild.h:481-503 | the output-path string builder computes `LinkOutput` |
| `Commands.LinkCommand` | apebuild.h:469-511 | with the rebuild bit set there is always a link command; a link command starts with `gcc` and ends with the object name of every source, in order |
| `Commands.GenLinkCommand` | apebuild.h:469-511 | `ape_gen_link_command` builds exactly `LinkCommand` |
| `Commands.LinkCommandSpec` | apebuild.h:503-505 | the link command is empty exactly when the output is not stale with respect to all objects and bit 0 is clear |
| `Commands.LinkCommandLayout` | apebuild.h:469-511 | a non-empty link command is `gcc`, the link arguments, `[-shared -fPIC] -o out`, then every object in source order |
| `Commands.LinkOutputSpec` | apebuild.h:481-503 | the output is `build/lib<name>.so` when bit 1 is set, otherwise `build/<name>`; bit 0 does not change it |
| `Commands.Compiles` | apebuild.h:522-528 | at most one compile per source is kept, and no kept command is empty |
| `Commands.CompilesStep` | apebuild.h:522-528 | one turn of the compile loop keeps the source's command exactly when it is not empty |
| `Commands.AppendCompile` | apebuild.h:523-527 | the loop body appends the source's compile command when it is not empty and leaves the list unchanged otherwise |
| `Commands.GenCompiles` | apebuild.h:522-528 | the compile loop builds exactly `Compiles` in a fresh list |
| `Commands.GenCommands` | apebuild.h:519-536 | a builder yields at most one command per source plus the link, and none of them is empty |
| `Commands.BuilderGenCommands` | apebuild.h:519-536 | `ape_builder_gen_commands` builds exactly `GenCommands`: the non-empty compiles in source order, then the link when it is non-empty |
| `BuildPlan.CompilesAreStaleSources` | apebuild.h:522-528 | without flags, exactly the stale sources compile, in the order they were added |
| `BuildPlan.ForcedCompilesAll` | apebuild.h:457-458 | with any flag set, every source compiles in order |
| `BuildPlan.ForcedBuildsEverything` | apebuild.h:519-536 | with the rebuild bit set, a builder yields one compile per source and then the link, `count + 1` commands |
| `BuildPlan.UpToDateYieldsNothing` | apebuild.h:519-536 | with no flags, fresh objects and a fresh output, a builder yields no command |
| `BuildPlan.GenCommandsShape` | apebuild.h:519-536 | a builder yields at most `count + 1` commands, none empty, with the link last when there is one |
| `Declare.Entry` | apebuild.h:552-572 | one entry of the non-recursive scan fails exactly when it is a non-hidden `.c` name that cannot be stat'ed; otherwise it gives at most its own path, and only when that is a regular file |
| `Declare.AppendDirSpec` | apebuild.h:543-574 | the non-recursive scan returns 0 or 1, and 1 with nothing appended when the directory cannot be opened |
| `Declare.RecEntry` | apebuild.h:585-607 | a hidden entry contributes nothing; an entry fails exactly when it is not hidden and cannot be stat'ed |
| `Declare.AppendDirRecSpec` | apebuild.h:576-610 | the recursive scan returns 0 or 1, and 1 with nothing appended when the directory cannot be opened |
| `Declare.ScanEntries` | apebuild.h:551-573 | the non-recursive scan returns 0 or 1 |
| `Declare.ScanEntriesRec` | apebuild.h:584-609 | the recursive scan returns 0 or 1 |
| `Declare.ApeBuilder.constructor` | apebuild.h:121 | a new builder has the given output name and everything else zero |
| `Declare.ApeBuilder.AppendFile` | apebuild.h:538-541 | the path is appended to the inputs, with no check; nothing else changes |
| `Declare.ApeBuilder.AppendDir` | apebuild.h:543-574 | the loop appends exactly what `AppendDirSpec` selects and returns its status; nothing else changes |
| `Declare.ApeBuilder.AppendEntry` | apebuild.h:552-572 | one turn of the non-recursive loop appends what `Entry` selects, and reports failure exactly where the loop returns 1 |
| `Declare.ApeBuilder.AppendEntryRec` | apebuild.h:585-608 | one turn of the recursive loop descends into a directory, appends what `RecEntry` selects, and reports failure exactly where the loop returns 1 |
| `Declare.ApeBuilder.AppendDirRecursive` | apebuild.h:576-610 | the recursive method appends exactly what `AppendDirRecSpec` selects and returns its status; nothing else changes |
| `Declare.ApeBuilder.SetFlag` | apebuild.h:113-117 | `APE_SET_FLAG` sets bit `flag` of the flags |
| `Declare.ApeBuilder.IncludeDir` | apebuild.h:129-130 | `-I<path>` is appended to the build arguments |
| `Declare.ApeBuilder.AddLib` | apebuild.h:131-133 | `-l<lib>` is appended to the link arguments |
| `Declare.ApeBuilder.AddLibDir` | apebuild.h:134-136 | `-L<dir>` is appended to the link arguments |
| `Declare.Registry.constructor` | apebuild.h:513-517 | the builder list starts empty |
| `Declare.Registry.Declare` | apebuild.h:119-123 | `APE_BUILDER` appends a copy of the builder whatever its name, duplicates included |
| `Scans.ScanEntriesSpec` | apebuild.h:551-573 | the non-recursive scan appends only regular `.c` files. It returns 0 exactly when every non-hidden `.c` entry can be stat'ed, and it then appends every selected entry. Each appended path is a selected entry |
| `Scans.AppendDirSpecProps` | apebuild.h:543-550 | a directory that cannot be opened gives 1 and appends nothing; otherwise only regular `.c` files are appended |
| `Scans.RecAppendsSources` | apebuild.h:576-610 | the recursive scan appends only regular `.c` files below the directory: each path starts with the directory's path and is longer |
| `Scans.RecEntriesAppendSources` | apebuild.h:584-609 | the recursive entry loop appends only regular `.c` files below the directory: each path starts with the directory's path and is longer |
| `Scans.RecFindsSources` | apebuild.h:584-606 | a successful recursive loop appends every non-hidden regular `.c` file of its own directory |
| `Scans.RecAppendsOnlySelected` | apebuild.h:584-609 | every path the recursive loop appends is a non-hidden regular `.c` entry of this directory or comes from the scan of a non-hidden subdirectory; hidden entries contribute nothing |
| `Scans.RecErrorIsLocal` | apebuild.h:593-601 | the recursive loop returns 0 exactly when every non-hidden entry of this directory can be stat'ed; failures in subdirectories are ignored |
| `Scans.RecDescends` | apebuild.h:599-601 | a successful recursive scan includes everything the scan of each non-hidden subdirectory appends |
| `Runner.BuilderRun` | apebuild.h:612-620 | running a builder starts at most one process per source plus the link |
| `Runner.RunBuilder` | apebuild.h:612-620 | `ape_run_builder` generates every command first, then returns `ape_cmds_run` of them |
| `Runner.ExitValue` | apebuild.h:635-639 | `ape_run` returns only 0 or 1, and 0 exactly when every builder succeeded |
| `Runner.Run` | apebuild.h:630-640 | the loop with its early return computes `RunInOrder` over `ape_run_builder` for the declared builders: its exit value and the number of builders started |
| `Runner.FailingBuilderStopsBatch` | apebuild.h:635-637 | when the first builder fails the second is never run |
| `Runner.UpToDateBuilderSucceeds` | apebuild.h:612-620 | an up-to-date builder starts no process and succeeds ("Nothing to build!") |
| `Runner.BuilderRunSpec` | apebuild.h:612-620 | a builder succeeds exactly when every generated command exits with status 0 |
| `Runner.FreshProjectBuildsAll` | apebuild.h:519-536 | with sources `a.c` and `b.c` and no objects or binary, the builder yields two compiles and one link, in that order |
| `Runner.PartialChangeSkipsLink` | apebuild.h:614-617 | after only `a.c` changed, the builder yields the compile of `a.c` and no link |
| `Bootstrap.RebuildCmd` | apebuild.h:81-83 | the rebuild command is `gcc -o <binary> <source>` |
| `Bootstrap.Backup` | apebuild.h:147-150 | the backup path is the binary's path extended by four characters (`.old`), so never the binary itself |
| `Bootstrap.SelfRebuild` | apebuild.h:138-167 | a fresh binary falls through to `apebuild_main`. Stale with a failed rename: exit 1, no compile. Failed recompile: the backup is renamed back, exit 1, no relaunch. Otherwise the original argv runs and the exit code is 0 exactly when that run succeeds |
| `Args.Shift` | include/example.h:7-13 | an argument is returned exactly when `argc > 0`, and it is the one at the cursor; each such call leaves one argument fewer, and the end of the arguments stays put |
| `Args.ShiftDrains` | include/example.h:7-13 | from `argc = n`, n calls return the n arguments in order and leave `argc` at 0; every later call returns NULL |
| `Args.ArgCursor.ShiftArgs` | include/example.h:7-13 | with `argc <= 0`: NULL, nothing changes. Otherwise: the old `(*argv)[0]`, `*argv` advanced by one, `argc` one less |

## Left out

- `fork`, `execvp`, `waitpid` and `strsignal` are not modelled. The parameter `exec` gives each command's outcome, and it is deterministic: the same command always has the same outcome. A failing `waitpid` and the loop over stopped children are not modelled separately.
- `stat`, `opendir`, `readdir` and `rename` are abstract. Lookups use the path string exactly, so `src` and `src/` are different keys.
- The filesystem is one snapshot for a whole `ape_run`. Files written by the commands (new objects and binaries) are not modelled. So a later builder sees the timestamps from before the run.
- The `fprintf` log lines are left out. The one exception is the rendered command (`Render.CmdRender`).
- Memory management is left out:
  - `realloc` copying, the `strdup` leaks, and the undersized `malloc(len)` at apebuild.h:473;
  - NUL terminators, since strings here carry none;
  - `Vec` keeps its items in a sequence beside a capacity counter, not in a buffer.
- `ApeBuilder`'s own lists (`infiles`, `extra_build_args`, `extra_link_args`) are sequence fields. The capacity bookkeeping is proved once, for `Vec`. `Vec` itself is used for the local command, string-builder and command-list arrays.
- The directory scans require a non-empty path. The C code reads the path's last character without checking the length (apebuild.h:558, 589).
- `size_t` and `uint16_t` overflow are not modelled. Counts and capacities are unbounded.
- Only the Linux GCC C preset is modelled. The `#pragma` diagnostics and the other presets are left out.
- `APEBUILD_MAIN` and the `{ input }` block of `APE_BUILDER` are left out. The block is whatever calls the script makes between `ApeBuilder`'s constructor and `Registry.Declare`.
- The driver `apebuild.c` is left out. Its argument parsing belongs to the host program, and it uses the undefined `APE_WATCH`.
- `st_mtime` is an integer. Clock granularity is not modelled.
- `Bootstrap.SelfRebuild` records the renames and runs as a trace of steps. It does not model the file contents that the renames and the compiler move.
