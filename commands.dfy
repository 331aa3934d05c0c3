/**
 * Command generation of apebuild.h for the Linux GCC C preset:
 * ape_gen_build_command (one compile), ape_gen_link_command (the link) and
 * ape_builder_gen_commands (all commands of one builder, compiles first).
 */
module Commands {
  import opened Wrappers
  import opened FileSys
  import opened Paths
  import opened Staleness
  import opened Process
  import opened DynArray

  /** APECC and APELD of the Linux GCC C preset. */
  const CC: string := "gcc"
  const LD: string := "gcc"
  /** APE_OUTPUT_DIR, APE_LIB_PREFIX and APE_LIB_SUFFIX. */
  const OutputDir: string := "build/"
  const LibPrefix: string := "lib"
  const LibSuffix: string := ".so"

  /** enum ApeFlag: bit numbers of ApeBuilder.flags. */
  const FlagRebuild: bv16 := 0
  const FlagSharedLib: bv16 := 1

  /** The force test of ape_gen_build_command, `(flags >> APE_FLAG_REBUILD) && 1`: true when any bit is set. */
  predicate CompileForced(flags: bv16)
  {
    (flags >> FlagRebuild) != 0
  }

  /** The force test of ape_gen_link_command, `(flags >> APE_FLAG_REBUILD) & 1`. */
  predicate LinkForced(flags: bv16)
  {
    (flags >> FlagRebuild) & 1 == 1
  }

  /** `(flags >> APE_FLAG_SHARED_LIB) & 1`. */
  predicate SharedLib(flags: bv16)
  {
    (flags >> FlagSharedLib) & 1 == 1
  }

  /**
   * The compile command for one source, or [] when its object is up to date
   * and no flag is set. A command always runs `gcc` and ends by writing the
   * source's object file.
   */
  function CompileCommand(fs: FileSystem, src: Path, flags: bv16, args: seq<string>): (cmd: Cmd)
    ensures cmd != [] ==> |cmd| > 2 && cmd[0] == CC && cmd[|cmd| - 2] == "-o" && cmd[|cmd| - 1] == ObjName(src)
  {
    if !(NeedsRebuild1(fs, ObjName(src), src) == 1 || CompileForced(flags)) then []
    else [CC] + args + ["-c", src, "-o", ObjName(src)]
  }

  /** The `for` loops of the generators that call ape_cmd_append once per argument. */
  method AppendEach(c: Vec<string>, xs: seq<string>)
    requires c.Valid()
    modifies c
    ensures c.Valid()
    ensures c.items == old(c.items) + xs
  {
    var i := 0;
    while i < |xs|
      invariant 0 <= i <= |xs|
      invariant c.Valid()
      invariant c.items == old(c.items) + xs[..i]
    {
      c.AppendMany([xs[i]]);
      assert xs[..i + 1] == xs[..i] + [xs[i]];
      Assoc(old(c.items), xs[..i], [xs[i]]);
      i := i + 1;
    }
    assert xs[..i] == xs;
  }

  /** ape_gen_build_command: test staleness, then append the compiler, the arguments and `-c src -o src.o`. */
  method GenBuildCommand(fs: FileSystem, src: Path, flags: bv16, args: seq<string>) returns (cmd: Cmd)
    ensures cmd == CompileCommand(fs, src, flags, args)
  {
    var c := new Vec<string>();
    if !(NeedsRebuild1(fs, ObjName(src), src) == 1 || CompileForced(flags)) {
      return c.items;
    }
    c.AppendMany([CC]);
    assert c.items == [CC];
    AppendEach(c, args);
    c.AppendMany(["-c", src, "-o", ObjName(src)]);
    return c.items;
  }

  /**
   * The compile command is empty exactly when the object exists, the source
   * exists and is not newer than the object, and no flag at all is set.
   * Otherwise it is `gcc`, the build arguments in order, then `-c src -o src.o`.
   */
  lemma CompileCommandSpec(fs: FileSystem, src: Path, flags: bv16, args: seq<string>)
    ensures var cmd := CompileCommand(fs, src, flags, args);
            && (cmd == [] <==> (!Stale(fs, ObjName(src), [src]) && flags == 0))
            && (cmd != [] ==>
                  && |cmd| == |args| + 5 && cmd[0] == CC && cmd[1..|args| + 1] == args
                  && cmd[|args| + 1] == "-c" && cmd[|args| + 2] == src
                  && cmd[|args| + 3] == "-o" && cmd[|args| + 4] == ObjName(src)
                  && EndsWith(Some(cmd[|args| + 4]), Some(ObjExtension)))
  {
    NeedsRebuildSpec(fs, ObjName(src), [src]);
    assert CompileForced(flags) <==> flags != 0;
  }

  /**
   * Because the force test uses `&&`, the shared-library bit alone also
   * forces a compile, however fresh the object is.
   */
  lemma SharedBitForcesCompile(fs: FileSystem, src: Path, args: seq<string>)
    ensures CompileCommand(fs, src, 1 << FlagSharedLib, args) != []
  {
  }

  /** The object paths of the sources, in source order. */
  function ObjNames(srcs: seq<Path>): (objs: seq<Path>)
    ensures |objs| == |srcs|
    ensures forall i :: 0 <= i < |srcs| ==> objs[i] == ObjName(srcs[i])
  {
    if srcs == [] then [] else ObjNames(srcs[..|srcs| - 1]) + [ObjName(srcs[|srcs| - 1])]
  }

  /**
   * The link output path: `build/<name>`, or `build/lib<name>.so` for a
   * shared library. Either way it lies under the output directory and holds
   * the whole name.
   */
  function LinkOutput(name: string, flags: bv16): (out: Path)
    ensures |out| >= |OutputDir| + |name| && out[..|OutputDir|] == OutputDir
  {
    if SharedLib(flags) then OutputDir + LibPrefix + name + LibSuffix else OutputDir + name
  }

  /** The link arguments placed before the objects. */
  function LinkArgs(out: Path, flags: bv16): seq<string>
  {
    if SharedLib(flags) then ["-shared", "-fPIC", "-o", out] else ["-o", out]
  }

  /**
   * The link command, or [] when the output is at least as new as every
   * object and the rebuild bit is clear. The rebuild bit always yields a
   * command; a command runs `gcc` and ends with the objects of all sources.
   */
  function LinkCommand(fs: FileSystem, name: string, srcs: seq<Path>, flags: bv16, args: seq<string>): (cmd: Cmd)
    ensures LinkForced(flags) ==> cmd != []
    ensures cmd != [] ==> cmd[0] == LD && |cmd| > |srcs| && cmd[|cmd| - |srcs|..] == ObjNames(srcs)
  {
    var out := LinkOutput(name, flags);
    if !(NeedsRebuild(fs, out, ObjNames(srcs)) == 1 || LinkForced(flags)) then []
    else [LD] + args + LinkArgs(out, flags) + ObjNames(srcs)
  }

  /** The first loop of ape_gen_link_command: the object name of every source. */
  method ObjFileNames(srcs: seq<Path>) returns (objs: seq<Path>)
    ensures objs == ObjNames(srcs)
  {
    objs := [];
    var i := 0;
    while i < |srcs|
      invariant 0 <= i <= |srcs|
      invariant objs == ObjNames(srcs[..i])
    {
      assert srcs[..i + 1][..i] == srcs[..i];
      objs := objs + [ObjName(srcs[i])];
      i := i + 1;
    }
    assert srcs[..i] == srcs;
  }

  /** The string builder of ape_gen_link_command that holds the output path. */
  method OutputPath(name: string, flags: bv16) returns (out: Path)
    ensures out == LinkOutput(name, flags)
  {
    var sb := new Vec<char>();
    sb.AppendMany(OutputDir);
    assert sb.items == OutputDir;
    if (flags >> FlagSharedLib) & 1 == 1 {
      sb.AppendMany(LibPrefix);
      sb.AppendMany(name);
      sb.AppendMany(LibSuffix);
    } else {
      sb.AppendMany(name);
    }
    return sb.items;
  }

  /**
   * ape_gen_link_command: name the objects, append the linker and the
   * arguments, build the output path, append the output arguments, test
   * staleness, then append the objects.
   */
  method GenLinkCommand(fs: FileSystem, name: string, srcs: seq<Path>, flags: bv16, args: seq<string>)
    returns (cmd: Cmd)
    ensures cmd == LinkCommand(fs, name, srcs, flags, args)
  {
    var objs := ObjFileNames(srcs);
    var c := new Vec<string>();
    c.AppendMany([LD]);
    assert c.items == [LD];
    AppendEach(c, args);
    var out := OutputPath(name, flags);
    if (flags >> FlagSharedLib) & 1 == 1 {
      c.AppendMany(["-shared", "-fPIC", "-o", out]);
    } else {
      c.AppendMany(["-o", out]);
    }
    assert c.items == [LD] + args + LinkArgs(out, flags);
    if !(NeedsRebuild(fs, out, objs) == 1 || (flags >> FlagRebuild) & 1 == 1) {
      return [];
    }
    AppendEach(c, objs);
    return c.items;
  }

  /**
   * The link command is empty exactly when the output exists, every object
   * exists and none is newer than the output, and the rebuild bit is clear.
   */
  lemma LinkCommandSpec(fs: FileSystem, name: string, srcs: seq<Path>, flags: bv16, args: seq<string>)
    ensures LinkCommand(fs, name, srcs, flags, args) == [] <==>
            (!Stale(fs, LinkOutput(name, flags), ObjNames(srcs)) && !LinkForced(flags))
  {
    NeedsRebuildSpec(fs, LinkOutput(name, flags), ObjNames(srcs));
  }

  /**
   * A link command that is not empty is `gcc`, the link arguments,
   * `[-shared -fPIC] -o out`, then every object in source order.
   */
  lemma LinkCommandLayout(fs: FileSystem, name: string, srcs: seq<Path>, flags: bv16, args: seq<string>)
    requires LinkCommand(fs, name, srcs, flags, args) != []
    ensures var cmd := LinkCommand(fs, name, srcs, flags, args);
            var out := LinkOutput(name, flags);
            var k := |args| + (if SharedLib(flags) then 5 else 3);
            && |cmd| == k + |srcs| && cmd[0] == LD && cmd[1..|args| + 1] == args
            && cmd[k - 2] == "-o" && cmd[k - 1] == out
            && (SharedLib(flags) ==> cmd[|args| + 1] == "-shared" && cmd[|args| + 2] == "-fPIC")
            && forall i :: 0 <= i < |srcs| ==> cmd[k + i] == ObjName(srcs[i])
  {
    var out := LinkOutput(name, flags);
    var head := [LD] + args + LinkArgs(out, flags);
    var k := |args| + (if SharedLib(flags) then 5 else 3);
    assert |head| == k;
    assert LinkCommand(fs, name, srcs, flags, args) == head + ObjNames(srcs);
    assert head[1..|args| + 1] == args;
  }

  /**
   * The output of a shared library is `build/lib<name>.so`, of anything else
   * `build/<name>`; the bit 0 force flag does not change the name.
   */
  lemma LinkOutputSpec(name: string, flags: bv16)
    ensures SharedLib(flags) ==> LinkOutput(name, flags) == "build/lib" + name + ".so"
    ensures !SharedLib(flags) ==> LinkOutput(name, flags) == "build/" + name
    ensures LinkOutput(name, flags) == LinkOutput(name, flags ^ 1)
  {
    assert SharedLib(flags) == SharedLib(flags ^ 1);
  }

  /** ApeBuilder as it sits in the builder list: a value copied in by APE_BUILDER. */
  datatype Builder = Builder(
    infiles: seq<Path>,
    outfile: string,
    flags: bv16,
    extraBuildArgs: seq<string>,
    extraLinkArgs: seq<string>)

  /** The non-empty compile commands for the sources, in source order. */
  function Compiles(fs: FileSystem, srcs: seq<Path>, flags: bv16, args: seq<string>): (cmds: seq<Cmd>)
    ensures |cmds| <= |srcs|
    ensures forall i :: 0 <= i < |cmds| ==> cmds[i] != []
  {
    if srcs == [] then []
    else
      var c := CompileCommand(fs, srcs[|srcs| - 1], flags, args);
      var before := Compiles(fs, srcs[..|srcs| - 1], flags, args);
      if c != [] then before + [c] else before
  }

  /** One turn of the compile loop: the command for source i is kept when it is not empty. */
  lemma CompilesStep(fs: FileSystem, srcs: seq<Path>, i: nat, flags: bv16, args: seq<string>)
    requires i < |srcs|
    ensures var c := CompileCommand(fs, srcs[i], flags, args);
            var before := Compiles(fs, srcs[..i], flags, args);
            Compiles(fs, srcs[..i + 1], flags, args) == if c != [] then before + [c] else before
  {
    var upto := srcs[..i + 1];
    assert upto[..i] == srcs[..i] && upto[i] == srcs[i];
  }

  /**
   * ape_builder_gen_commands as a specification: the compiles, then the link
   * when there is one. At most one command per source plus the link, and
   * none of them empty, so ape_cmd_run_sync never refuses one.
   */
  function GenCommands(fs: FileSystem, b: Builder): (cmds: seq<Cmd>)
    ensures |cmds| <= |b.infiles| + 1
    ensures forall i :: 0 <= i < |cmds| ==> cmds[i] != []
  {
    var link := LinkCommand(fs, b.outfile, b.infiles, b.flags, b.extraLinkArgs);
    var compiles := Compiles(fs, b.infiles, b.flags, b.extraBuildArgs);
    if link != [] then compiles + [link] else compiles
  }

  /** The compile loop of ape_builder_gen_commands: one command per source, empty ones dropped. */
  method GenCompiles(fs: FileSystem, b: Builder) returns (cl: Vec<Cmd>)
    ensures fresh(cl) && cl.Valid()
    ensures cl.items == Compiles(fs, b.infiles, b.flags, b.extraBuildArgs)
  {
    cl := new Vec<Cmd>();
    var i := 0;
    while i < |b.infiles|
      invariant 0 <= i <= |b.infiles|
      invariant cl.Valid()
      invariant cl.items == Compiles(fs, b.infiles[..i], b.flags, b.extraBuildArgs)
    {
      CompilesStep(fs, b.infiles, i, b.flags, b.extraBuildArgs);
      AppendCompile(cl, fs, b.infiles[i], b.flags, b.extraBuildArgs);
      i := i + 1;
    }
    assert b.infiles[..i] == b.infiles;
  }

  /** The body of the compile loop: generate the command and append it when it is not empty. */
  method AppendCompile(cl: Vec<Cmd>, fs: FileSystem, src: Path, flags: bv16, args: seq<string>)
    requires cl.Valid()
    modifies cl
    ensures cl.Valid()
    ensures var c := CompileCommand(fs, src, flags, args);
            cl.items == if c != [] then old(cl.items) + [c] else old(cl.items)
  {
    var c := GenBuildCommand(fs, src, flags, args);
    if c != [] {
      cl.Append(c);
    }
  }

  /** ape_builder_gen_commands: the compiles, then the link command when it is not empty. */
  method BuilderGenCommands(fs: FileSystem, b: Builder) returns (cmds: seq<Cmd>)
    ensures cmds == GenCommands(fs, b)
  {
    var cl := GenCompiles(fs, b);
    var c := GenLinkCommand(fs, b.outfile, b.infiles, b.flags, b.extraLinkArgs);
    if c != [] {
      cl.Append(c);
    }
    return cl.items;
  }
}
