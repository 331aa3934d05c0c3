/**
 * Running builders (ape_run_builder, ape_run): generate all commands of a
 * builder first, then run them in order; run the builders in declaration
 * order and stop at the first one that fails.
 */
module Runner {
  import opened FileSys
  import opened Paths
  import opened Staleness
  import opened Process
  import opened Commands
  import opened BuildPlan
  import opened Declare

  /**
   * ape_run_builder as a specification: the commands are all generated, then
   * run. A builder starts at most one process per source plus the link.
   */
  function BuilderRun(fs: FileSystem, exec: Cmd -> Outcome, b: Builder): (t: RunTrace)
    ensures t.attempted <= |b.infiles| + 1
  {
    RunInOrder(CmdSucceeds(exec), GenCommands(fs, b))
  }

  /** ape_run_builder: returns ape_cmds_run of the generated list ("Nothing to build!" when it is empty). */
  method RunBuilder(fs: FileSystem, exec: Cmd -> Outcome, b: Builder) returns (ok: bool, ghost attempted: nat)
    ensures RunTrace(ok, attempted) == BuilderRun(fs, exec, b)
  {
    var cmds := BuilderGenCommands(fs, b);
    ok, attempted := CmdsRun(exec, cmds);
  }

  /** ape_run_builder as a test on builders. */
  function BuilderSucceeds(fs: FileSystem, exec: Cmd -> Outcome): Builder -> bool
  {
    (b: Builder) => BuilderRun(fs, exec, b).ok
  }

  /** The exit value of ape_run: 0 when every builder succeeded, 1 at the first failure. */
  function ExitValue(t: RunTrace): (rc: int)
    ensures rc == 0 <==> t.ok
    ensures rc == 0 || rc == 1
  {
    if t.ok then 0 else 1
  }

  /**
   * ape_run: build every declared builder in order, returning 1 at the first
   * failure and 0 when all succeed. It is RunInOrder over the builders, so
   * RunInOrderSpec says it returns 0 exactly when every builder succeeds and
   * runs no builder after the first failing one.
   */
  method Run(fs: FileSystem, exec: Cmd -> Outcome, reg: Registry) returns (rc: int, ghost ran: nat)
    ensures var t := RunInOrder(BuilderSucceeds(fs, exec), reg.builders);
            rc == ExitValue(t) && ran == t.attempted
  {
    var bs := reg.builders;
    var i := 0;
    while i < |bs|
      invariant 0 <= i <= |bs|
      invariant RunInOrder(BuilderSucceeds(fs, exec), bs) ==
                var t := RunInOrder(BuilderSucceeds(fs, exec), bs[i..]); RunTrace(t.ok, t.attempted + i)
    {
      RunInOrderStep(BuilderSucceeds(fs, exec), bs, i);
      var p, _ := RunBuilder(fs, exec, bs[i]);
      if !p {
        return 1, i + 1;
      }
      i := i + 1;
    }
    assert bs[i..] == [];
    return 0, |bs|;
  }

  /** A failing first builder stops the batch: the second builder is never run. */
  lemma FailingBuilderStopsBatch(fs: FileSystem, exec: Cmd -> Outcome, b1: Builder, b2: Builder)
    requires !BuilderRun(fs, exec, b1).ok
    ensures var t := RunInOrder(BuilderSucceeds(fs, exec), [b1, b2]);
            ExitValue(t) == 1 && t.attempted == 1
  {
  }

  /** An up-to-date builder spawns nothing and succeeds. */
  lemma UpToDateBuilderSucceeds(fs: FileSystem, exec: Cmd -> Outcome, b: Builder)
    requires b.flags == 0
    requires ObjectsFresh(fs, b.infiles)
    requires !Stale(fs, LinkOutput(b.outfile, 0), ObjNames(b.infiles))
    ensures BuilderRun(fs, exec, b) == RunTrace(true, 0)
  {
    UpToDateYieldsNothing(fs, b);
  }

  /** A builder succeeds exactly when every command it generates exits with status 0. */
  lemma BuilderRunSpec(fs: FileSystem, exec: Cmd -> Outcome, b: Builder)
    ensures BuilderRun(fs, exec, b).ok <==>
            forall i :: 0 <= i < |GenCommands(fs, b)| ==> exec(GenCommands(fs, b)[i]) == Exited(0)
  {
    CmdsRunSpec(exec, GenCommands(fs, b));
    GenCommandsShape(fs, b);
  }

  /** The builder `app` with sources a.c and b.c and no flags or arguments. */
  function App(): Builder
  {
    Builder(["a.c", "b.c"], "app", 0, [], [])
  }

  lemma TwoObjNames()
    ensures ObjNames(["a.c", "b.c"]) == ["a.c.o", "b.c.o"]
  {
    assert ObjName("a.c") == "a.c.o" && ObjName("b.c") == "b.c.o";
    assert ["a.c", "b.c"][..1] == ["a.c"];
    assert ObjNames(["a.c"]) == ["a.c.o"];
  }

  /** A new project: no object and no binary yet, so two compiles and one link. */
  lemma FreshProjectBuildsAll()
    ensures var fs := FileSystem(map["a.c" := Inode(Regular, 1), "b.c" := Inode(Regular, 1)], map[]);
            GenCommands(fs, App()) == [
              ["gcc", "-c", "a.c", "-o", "a.c.o"],
              ["gcc", "-c", "b.c", "-o", "b.c.o"],
              ["gcc", "-o", "build/app", "a.c.o", "b.c.o"]]
  {
    var fs := FileSystem(map["a.c" := Inode(Regular, 1), "b.c" := Inode(Regular, 1)], map[]);
    TwoObjNames();
    NeedsRebuild1Spec(fs, "a.c.o", "a.c");
    NeedsRebuild1Spec(fs, "b.c.o", "b.c");
    TwoCompiles(fs, true);
    assert LinkOutput("app", 0) == "build/app";
    assert LinkCommand(fs, "app", ["a.c", "b.c"], 0, []) == [LD] + [] + ["-o", "build/app"] + ["a.c.o", "b.c.o"];
    assert [LD] + [] + ["-o", "build/app"] + ["a.c.o", "b.c.o"] == ["gcc", "-o", "build/app", "a.c.o", "b.c.o"];
  }

  /** The compiles of App() when a.c is stale, and b.c exactly when `bStale`. */
  lemma TwoCompiles(fs: FileSystem, bStale: bool)
    requires NeedsRebuild1(fs, "a.c.o", "a.c") == 1
    requires bStale <==> NeedsRebuild1(fs, "b.c.o", "b.c") == 1
    ensures Compiles(fs, ["a.c", "b.c"], 0, []) ==
            [["gcc", "-c", "a.c", "-o", "a.c.o"]] + (if bStale then [["gcc", "-c", "b.c", "-o", "b.c.o"]] else [])
  {
    assert ObjName("a.c") == "a.c.o" && ObjName("b.c") == "b.c.o";
    assert ["a.c", "b.c"][..1] == ["a.c"];
    assert ["a.c"][..0] == [];
    assert !CompileForced(0);
    assert CompileCommand(fs, "a.c", 0, []) == [CC] + [] + ["-c", "a.c", "-o", "a.c.o"];
    assert [CC] + [] + ["-c", "a.c", "-o", "a.c.o"] == ["gcc", "-c", "a.c", "-o", "a.c.o"];
    assert Compiles(fs, ["a.c"], 0, []) == [["gcc", "-c", "a.c", "-o", "a.c.o"]];
    if bStale {
      assert CompileCommand(fs, "b.c", 0, []) == [CC] + [] + ["-c", "b.c", "-o", "b.c.o"];
      assert [CC] + [] + ["-c", "b.c", "-o", "b.c.o"] == ["gcc", "-c", "b.c", "-o", "b.c.o"];
    } else {
      assert CompileCommand(fs, "b.c", 0, []) == [];
    }
  }

  /**
   * After only a.c changed, a.c is recompiled but the binary is not relinked
   * in the same run: the link decision is taken before the compile runs, when
   * a.c.o is still older than the binary.
   */
  lemma PartialChangeSkipsLink()
    ensures var fs := FileSystem(map[
                "a.c" := Inode(Regular, 5), "b.c" := Inode(Regular, 1),
                "a.c.o" := Inode(Regular, 2), "b.c.o" := Inode(Regular, 2),
                "build/app" := Inode(Regular, 3)], map[]);
            GenCommands(fs, App()) == [["gcc", "-c", "a.c", "-o", "a.c.o"]]
  {
    var fs := FileSystem(map[
                "a.c" := Inode(Regular, 5), "b.c" := Inode(Regular, 1),
                "a.c.o" := Inode(Regular, 2), "b.c.o" := Inode(Regular, 2),
                "build/app" := Inode(Regular, 3)], map[]);
    TwoObjNames();
    NeedsRebuild1Spec(fs, "a.c.o", "a.c");
    NeedsRebuild1Spec(fs, "b.c.o", "b.c");
    TwoCompiles(fs, false);
    assert LinkOutput("app", 0) == "build/app";
    NeedsRebuildSpec(fs, "build/app", ["a.c.o", "b.c.o"]);
  }
}
