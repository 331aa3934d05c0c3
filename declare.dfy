/**
 * The declaration phase of apebuild.h: APE_BUILDER and the calls made inside
 * its block (APE_INPUT_FILE, APE_INPUT_DIR, APE_INPUT_DIR_REC, APE_SET_FLAG,
 * APE_INCLUDE_DIR, APE_ADD_LIB, APE_ADD_LIBDIR), which fill one ApeBuilder in
 * place and then copy it into the global builder list.
 */
module Declare {
  import opened Wrappers
  import opened FileSys
  import opened Paths
  import opened Commands
  import opened DynArray

  /** What a directory scan appended, and the value it returned (0 success, 1 error). */
  datatype Scan = Scan(added: seq<Path>, rc: int)

  /** The files `added` go first, in front of what the rest of the scan does. */
  function Prepend(added: seq<Path>, s: Scan): Scan
  {
    Scan(added + s.added, s.rc)
  }

  /**
   * What one entry contributes to the non-recursive scan, or None when the
   * scan returns 1 at it: names starting with '.' and names not ending in
   * ".c" are skipped; otherwise the joined path is stat'ed (failing when that
   * fails) and appended when it is a regular file.
   */
  function Entry(fs: FileSystem, dir: Path, n: Name): (r: Option<seq<Path>>)
    requires |dir| > 0
    ensures r.None? <==> !Hidden(n) && EndsWith(Some(n), Some(SrcExtension)) && Join(dir, n) !in fs.nodes
    ensures r.Some? ==> |r.value| <= 1 && forall p :: p in r.value ==> p == Join(dir, n) && p in fs.nodes && fs.nodes[p].kind == Regular
  {
    if Hidden(n) || !EndsWith(Some(n), Some(SrcExtension)) then Some([])
    else
      var p := Join(dir, n);
      if p !in fs.nodes then None
      else Some(if fs.nodes[p].kind == Regular then [p] else [])
  }

  /** The loop of ape_builder_append_dir over the remaining entries, stopping at the first failing one. */
  function ScanEntries(fs: FileSystem, dir: Path, names: seq<Name>): (s: Scan)
    requires |dir| > 0
    ensures s.rc == 0 || s.rc == 1
  {
    if names == [] then Scan([], 0)
    else
      match Entry(fs, dir, names[0])
      case None => Scan([], 1)
      case Some(a) => Prepend(a, ScanEntries(fs, dir, names[1..]))
  }

  /** ape_builder_append_dir: 1 when the directory cannot be opened, else the scan of its entries. */
  function AppendDirSpec(fs: FileSystem, dir: Path): (s: Scan)
    requires |dir| > 0
    ensures s.rc == 0 || s.rc == 1
    ensures dir !in fs.listings ==> s == Scan([], 1)
  {
    if dir !in fs.listings then Scan([], 1) else ScanEntries(fs, dir, fs.listings[dir])
  }

  /** The paths of the filesystem longer than p: shrinks at every level of the recursive scan. */
  function Deeper(fs: FileSystem, p: Path): set<Path>
  {
    set q | q in fs.nodes && |q| > |p|
  }

  /**
   * What one entry contributes to the recursive scan, or None when the scan
   * returns 1 at it: a name starting with '.' is skipped; otherwise the
   * joined path is stat'ed (failing when that fails), a directory is
   * descended into with the result of the descent ignored, and the path is
   * appended when it is a regular file whose name ends in ".c".
   */
  function RecEntry(fs: FileSystem, dir: Path, n: Name): (r: Option<seq<Path>>)
    requires |dir| > 0
    ensures Hidden(n) ==> r == Some([])
    ensures r.None? <==> !Hidden(n) && Join(dir, n) !in fs.nodes
    decreases Deeper(fs, dir), 0, 0
  {
    if Hidden(n) then Some([])
    else
      var p := Join(dir, n);
      if p !in fs.nodes then None
      else
        var sub := if fs.nodes[p].kind == Directory then DeeperShrinks(fs, dir, p); AppendDirRecSpec(fs, p).added else [];
        var here := if EndsWith(Some(n), Some(SrcExtension)) && fs.nodes[p].kind == Regular then [p] else [];
        Some(sub + here)
  }

  /** The loop of ape_builder_append_dir_recursive over the remaining entries, stopping at the first failing one. */
  function ScanEntriesRec(fs: FileSystem, dir: Path, names: seq<Name>): (s: Scan)
    requires |dir| > 0
    ensures s.rc == 0 || s.rc == 1
    decreases Deeper(fs, dir), 0, |names|
  {
    if names == [] then Scan([], 0)
    else
      match RecEntry(fs, dir, names[0])
      case None => Scan([], 1)
      case Some(a) => Prepend(a, ScanEntriesRec(fs, dir, names[1..]))
  }

  /** ape_builder_append_dir_recursive: 1 when the directory cannot be opened, else the scan of its entries. */
  function AppendDirRecSpec(fs: FileSystem, dir: Path): (s: Scan)
    requires |dir| > 0
    ensures s.rc == 0 || s.rc == 1
    ensures dir !in fs.listings ==> s == Scan([], 1)
    decreases Deeper(fs, dir), 1, 0
  {
    if dir !in fs.listings then Scan([], 1) else ScanEntriesRec(fs, dir, fs.listings[dir])
  }

  lemma DeeperShrinks(fs: FileSystem, dir: Path, p: Path)
    requires p in fs.nodes && |p| > |dir|
    ensures Deeper(fs, p) < Deeper(fs, dir)
  {
    assert p in Deeper(fs, dir) && p !in Deeper(fs, p);
  }

  /** ApeBuilder while its APE_BUILDER block runs: the fields the declaration macros update. */
  class ApeBuilder {
    var infiles: seq<Path>
    var outfile: string
    var flags: bv16
    var extraBuildArgs: seq<string>
    var extraLinkArgs: seq<string>

    /** The value APE_BUILDER copies into the builder list. */
    function Value(): Builder
      reads this
    {
      Builder(infiles, outfile, flags, extraBuildArgs, extraLinkArgs)
    }

    /** `(ApeBuilder){ .outfile = name }`: everything else zero. */
    constructor (name: string)
      ensures Value() == Builder([], name, 0, [], [])
    {
      infiles := [];
      outfile := name;
      flags := 0;
      extraBuildArgs := [];
      extraLinkArgs := [];
    }

    /** ape_builder_append_file (APE_INPUT_FILE): append the path, without any check. */
    method AppendFile(path: Path)
      modifies this
      ensures Value() == old(Value()).(infiles := old(infiles) + [path])
    {
      infiles := infiles + [path];
    }

    /** ape_builder_append_dir (APE_INPUT_DIR). */
    method AppendDir(fs: FileSystem, path: Path) returns (rc: int)
      requires |path| > 0
      modifies this
      ensures Value() == old(Value()).(infiles := old(infiles) + AppendDirSpec(fs, path).added)
      ensures rc == AppendDirSpec(fs, path).rc
    {
      if path !in fs.listings {
        return 1;
      }
      var names := fs.listings[path];
      ghost var done: seq<Path> := [];
      var i := 0;
      while i < |names|
        invariant 0 <= i <= |names|
        invariant infiles == old(infiles) + done
        invariant Value() == old(Value()).(infiles := infiles)
        invariant ScanEntries(fs, path, names) == Prepend(done, ScanEntries(fs, path, names[i..]))
      {
        assert names[i..][1..] == names[i + 1..];
        ghost var entry := Entry(fs, path, names[i]);
        var ok := AppendEntry(fs, path, names[i]);
        if !ok {
          return 1;
        }
        Assoc(done, entry.value, ScanEntries(fs, path, names[i + 1..]).added);
        done := done + entry.value;
        i := i + 1;
      }
      assert names[i..] == [];
      return 0;
    }

    /** The body of the loop of ape_builder_append_dir for one entry; false where the loop returns 1. */
    method AppendEntry(fs: FileSystem, dir: Path, n: Name) returns (ok: bool)
      requires |dir| > 0
      modifies this
      ensures ok == Entry(fs, dir, n).Some?
      ensures Value() == old(Value()).(infiles := old(infiles) + (if ok then Entry(fs, dir, n).value else []))
    {
      if Hidden(n) {
        return true;
      }
      if !EndsWith(Some(n), Some(SrcExtension)) {
        return true;
      }
      var p := Join(dir, n);
      if p !in fs.nodes {
        return false;
      }
      if fs.nodes[p].kind == Regular {
        AppendFile(p);
      }
      return true;
    }

    /** ape_builder_append_dir_recursive (APE_INPUT_DIR_REC). */
    method AppendDirRecursive(fs: FileSystem, path: Path) returns (rc: int)
      requires |path| > 0
      modifies this
      ensures Value() == old(Value()).(infiles := old(infiles) + AppendDirRecSpec(fs, path).added)
      ensures rc == AppendDirRecSpec(fs, path).rc
      decreases Deeper(fs, path), 1
    {
      if path !in fs.listings {
        return 1;
      }
      var names := fs.listings[path];
      ghost var done: seq<Path> := [];
      var i := 0;
      while i < |names|
        invariant 0 <= i <= |names|
        invariant infiles == old(infiles) + done
        invariant Value() == old(Value()).(infiles := infiles)
        invariant ScanEntriesRec(fs, path, names) == Prepend(done, ScanEntriesRec(fs, path, names[i..]))
      {
        assert names[i..][1..] == names[i + 1..];
        ghost var entry := RecEntry(fs, path, names[i]);
        var ok := AppendEntryRec(fs, path, names[i]);
        if !ok {
          return 1;
        }
        Assoc(done, entry.value, ScanEntriesRec(fs, path, names[i + 1..]).added);
        done := done + entry.value;
        i := i + 1;
      }
      assert names[i..] == [];
      return 0;
    }

    /** The body of the loop of ape_builder_append_dir_recursive for one entry; false where the loop returns 1. */
    method AppendEntryRec(fs: FileSystem, dir: Path, n: Name) returns (ok: bool)
      requires |dir| > 0
      modifies this
      ensures ok == RecEntry(fs, dir, n).Some?
      ensures Value() == old(Value()).(infiles := old(infiles) + (if ok then RecEntry(fs, dir, n).value else []))
      decreases Deeper(fs, dir), 0
    {
      if Hidden(n) {
        return true;
      }
      var p := Join(dir, n);
      if p !in fs.nodes {
        return false;
      }
      if fs.nodes[p].kind == Directory {
        DeeperShrinks(fs, dir, p);
        var _ := AppendDirRecursive(fs, p);
      }
      if !EndsWith(Some(n), Some(SrcExtension)) {
        return true;
      }
      if fs.nodes[p].kind == Regular {
        AppendFile(p);
      }
      return true;
    }

    /** APE_SET_FLAG: `flags |= 1 << flag`. */
    method SetFlag(flag: bv16)
      requires flag == FlagRebuild || flag == FlagSharedLib
      modifies this
      ensures Value() == old(Value()).(flags := old(flags) | (1 << flag))
    {
      flags := flags | (1 << flag);
    }

    /** APE_INCLUDE_DIR: append `-I<path>` to the build arguments. */
    method IncludeDir(path: string)
      modifies this
      ensures Value() == old(Value()).(extraBuildArgs := old(extraBuildArgs) + ["-I" + path])
    {
      extraBuildArgs := extraBuildArgs + ["-I" + path];
    }

    /** APE_ADD_LIB: append `-l<lib>` to the link arguments. */
    method AddLib(lib: string)
      modifies this
      ensures Value() == old(Value()).(extraLinkArgs := old(extraLinkArgs) + ["-l" + lib])
    {
      extraLinkArgs := extraLinkArgs + ["-l" + lib];
    }

    /** APE_ADD_LIBDIR: append `-L<dir>` to the link arguments. */
    method AddLibDir(dir: string)
      modifies this
      ensures Value() == old(Value()).(extraLinkArgs := old(extraLinkArgs) + ["-L" + dir])
    {
      extraLinkArgs := extraLinkArgs + ["-L" + dir];
    }
  }

  /** ape__builder_list: every builder declared so far, in declaration order. */
  class Registry {
    var builders: seq<Builder>

    constructor ()
      ensures builders == []
    {
      builders := [];
    }

    /**
     * The end of APE_BUILDER: copy the builder into the list. Names are not
     * checked, so a second builder with the same name is appended as well.
     */
    method Declare(b: ApeBuilder)
      modifies this
      ensures builders == old(builders) + [b.Value()]
    {
      builders := builders + [b.Value()];
    }
  }
}
