/**
 * Which commands a builder yields, stated over the whole builder: the stale
 * sources compile in order, a forced build compiles everything and links,
 * an up-to-date builder yields nothing.
 */
module BuildPlan {
  import opened FileSys
  import opened Paths
  import opened Staleness
  import opened Process
  import opened Commands

  /** The sources whose object is stale, in declared order. */
  function StaleSources(fs: FileSystem, srcs: seq<Path>): (r: seq<Path>)
    ensures |r| <= |srcs|
  {
    if srcs == [] then []
    else
      var s := srcs[|srcs| - 1];
      StaleSources(fs, srcs[..|srcs| - 1]) + (if NeedsRebuild1(fs, ObjName(s), s) == 1 then [s] else [])
  }

  /** The full compile command of every listed source. */
  function CompileAll(srcs: seq<Path>, args: seq<string>): (cmds: seq<Cmd>)
    ensures |cmds| == |srcs|
    ensures forall i :: 0 <= i < |srcs| ==> cmds[i] == [CC] + args + ["-c", srcs[i], "-o", ObjName(srcs[i])]
  {
    if srcs == [] then []
    else CompileAll(srcs[..|srcs| - 1], args) + [[CC] + args + ["-c", srcs[|srcs| - 1], "-o", ObjName(srcs[|srcs| - 1])]]
  }

  /**
   * Without flags, a builder compiles exactly its stale sources, in the order
   * they were added.
   */
  lemma {:induction false} CompilesAreStaleSources(fs: FileSystem, srcs: seq<Path>, args: seq<string>)
    ensures Compiles(fs, srcs, 0, args) == CompileAll(StaleSources(fs, srcs), args)
  {
    if srcs != [] {
      var init := srcs[..|srcs| - 1];
      var s := srcs[|srcs| - 1];
      CompilesAreStaleSources(fs, init, args);
      var st := StaleSources(fs, init);
      if NeedsRebuild1(fs, ObjName(s), s) == 1 {
        assert (st + [s])[..|st|] == st;
      }
    }
  }

  /** With any flag set, every source compiles, in the order they were added. */
  lemma {:induction false} ForcedCompilesAll(fs: FileSystem, srcs: seq<Path>, flags: bv16, args: seq<string>)
    requires flags != 0
    ensures Compiles(fs, srcs, flags, args) == CompileAll(srcs, args)
  {
    assert CompileForced(flags);
    if srcs != [] {
      ForcedCompilesAll(fs, srcs[..|srcs| - 1], flags, args);
    }
  }

  /**
   * With the rebuild flag set, the builder yields one compile per source in
   * source order, then the link: |infiles| + 1 commands whatever the timestamps.
   */
  lemma ForcedBuildsEverything(fs: FileSystem, b: Builder)
    requires LinkForced(b.flags)
    ensures var cmds := GenCommands(fs, b);
            && |cmds| == |b.infiles| + 1
            && cmds[..|b.infiles|] == CompileAll(b.infiles, b.extraBuildArgs)
            && cmds[|b.infiles|] == LinkCommand(fs, b.outfile, b.infiles, b.flags, b.extraLinkArgs)
            && cmds[|b.infiles|] != []
  {
    assert b.flags != 0;
    ForcedCompilesAll(fs, b.infiles, b.flags, b.extraBuildArgs);
  }

  /** Every object is at least as new as its source (and both exist). */
  ghost predicate ObjectsFresh(fs: FileSystem, srcs: seq<Path>)
  {
    forall i :: 0 <= i < |srcs| ==> !Stale(fs, ObjName(srcs[i]), [srcs[i]])
  }

  /**
   * A builder with no flags whose objects are fresh and whose output is at
   * least as new as every object yields no command at all.
   */
  lemma {:induction false} UpToDateYieldsNothing(fs: FileSystem, b: Builder)
    requires b.flags == 0
    requires ObjectsFresh(fs, b.infiles)
    requires !Stale(fs, LinkOutput(b.outfile, 0), ObjNames(b.infiles))
    ensures GenCommands(fs, b) == []
  {
    NoStaleSources(fs, b.infiles);
    CompilesAreStaleSources(fs, b.infiles, b.extraBuildArgs);
    LinkCommandSpec(fs, b.outfile, b.infiles, 0, b.extraLinkArgs);
  }

  lemma {:induction false} NoStaleSources(fs: FileSystem, srcs: seq<Path>)
    requires ObjectsFresh(fs, srcs)
    ensures StaleSources(fs, srcs) == []
  {
    if srcs != [] {
      var s := srcs[|srcs| - 1];
      NeedsRebuildSpec(fs, ObjName(s), [s]);
      NoStaleSources(fs, srcs[..|srcs| - 1]);
    }
  }

  /**
   * The commands of a builder: at most one per source plus one link, none of
   * them empty, the compiles in source order and the link, when present, last.
   */
  lemma GenCommandsShape(fs: FileSystem, b: Builder)
    ensures var cmds := GenCommands(fs, b);
            var link := LinkCommand(fs, b.outfile, b.infiles, b.flags, b.extraLinkArgs);
            && |cmds| <= |b.infiles| + 1
            && (forall i :: 0 <= i < |cmds| ==> cmds[i] != [])
            && (link != [] ==> cmds[|cmds| - 1] == link)
            && (link == [] ==> cmds == Compiles(fs, b.infiles, b.flags, b.extraBuildArgs))
  {
  }
}
