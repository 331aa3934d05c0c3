/**
 * APE_REBUILD: the self-rebuild that runs at the start of main. When the
 * running binary (argv[0]) is stale with respect to the build script's own
 * source, it is renamed to `<argv[0]>.old`, the source is recompiled to
 * argv[0], and the new binary is run with the original arguments; the
 * process then exits 0 or 1 with that run's success. A failed recompile puts
 * the backup back and exits 1.
 */
module Bootstrap {
  import opened FileSys
  import opened Staleness
  import opened Process
  import opened DynArray

  /** The steps the protocol takes, in order. */
  datatype Step = Renamed(from: Path, to: Path, ok: bool) | Ran(cmd: Cmd, ok: bool)

  /** Fall through to apebuild_main, or exit with a status. */
  datatype BootResult = Continue | Exit(code: int)

  /** APE_REBUILD_COMMAND(out, in): `gcc -o out in`. */
  function RebuildCmd(bin: Path, src: Path): (cmd: Cmd)
    ensures |cmd| == 4 && cmd[0] == "gcc" && cmd[1..3] == ["-o", bin] && cmd[|cmd| - 1] == src
  {
    ["gcc", "-o", bin, src]
  }

  /**
   * The sibling path the running binary is moved to: the binary's path with
   * a suffix, so never the binary itself.
   */
  function Backup(bin: Path): (bak: Path)
    ensures |bak| == |bin| + 4 && bak[..|bin|] == bin && bak != bin
  {
    bin + ".old"
  }

  /**
   * APE_REBUILD(argc, argv) with `src` for __FILE__. `renameOk` says whether
   * rename(2) succeeds for a pair of paths.
   */
  method SelfRebuild(fs: FileSystem, exec: Cmd -> Outcome, renameOk: (Path, Path) -> bool,
                     argv: seq<string>, src: Path)
    returns (res: BootResult, ghost trace: seq<Step>)
    requires |argv| >= 1
    ensures var bin, bak := argv[0], Backup(argv[0]);
            var rebuild := RebuildCmd(argv[0], src);
            && (res == Continue <==> !Stale(fs, bin, [src]))
            && (res == Continue ==> trace == [])
            && (Stale(fs, bin, [src]) && !renameOk(bin, bak) ==>
                  res == Exit(1) && trace == [Renamed(bin, bak, false)])
            && (Stale(fs, bin, [src]) && renameOk(bin, bak) && !CmdRunSync(exec, rebuild) ==>
                  res == Exit(1) &&
                  trace == [Renamed(bin, bak, true), Ran(rebuild, false), Renamed(bak, bin, renameOk(bak, bin))])
            && (Stale(fs, bin, [src]) && renameOk(bin, bak) && CmdRunSync(exec, rebuild) ==>
                  res == Exit(if CmdRunSync(exec, argv) then 0 else 1) &&
                  trace == [Renamed(bin, bak, true), Ran(rebuild, true), Ran(argv, CmdRunSync(exec, argv))])
            && (res == Exit(0) ==> Ran(rebuild, true) in trace && Ran(argv, true) in trace)
  {
    var binpath := argv[0];
    var rebuildNeeded := NeedsRebuild1(fs, binpath, src);
    NeedsRebuildSpec(fs, binpath, [src]);
    if rebuildNeeded < 0 {
      // ape_needs_rebuild returns only 0 or 1: the exit(1) of this branch is unreachable.
      assert false;
    }
    if rebuildNeeded != 0 {
      var sb := new Vec<char>();
      sb.AppendMany(binpath);
      assert sb.items == binpath;
      sb.AppendMany(".old");
      var backup := sb.items;
      assert backup == Backup(binpath);
      if !renameOk(binpath, backup) {
        return Exit(1), [Renamed(binpath, backup, false)];
      }
      trace := [Renamed(binpath, backup, true)];
      var rebuild := RebuildCmd(binpath, src);
      var rebuilt := CmdRunSync(exec, rebuild);
      if !rebuilt {
        var restored := renameOk(backup, binpath);
        return Exit(1), trace + [Ran(rebuild, false), Renamed(backup, binpath, restored)];
      }
      trace := trace + [Ran(rebuild, true)];
      var cmd := new Vec<string>();
      cmd.AppendMany(argv);
      assert cmd.items == argv;
      var relaunched := CmdRunSync(exec, cmd.items);
      trace := trace + [Ran(argv, relaunched)];
      if !relaunched {
        return Exit(1), trace;
      }
      return Exit(0), trace;
    }
    return Continue, [];
  }
}
