/**
 * String and path helpers of apebuild.h: the suffix test ape_endswith, the
 * object-file name ape_objfile_name, and the directory/name join done inline
 * by ape_builder_append_dir and ape_builder_append_dir_recursive.
 */
module Paths {
  import opened Wrappers
  import opened FileSys

  /** APE_OBJ_EXTENSION of the Linux GCC C preset. */
  const ObjExtension: string := ".o"
  /** APE_SRC_EXTENSION of the Linux GCC C preset. */
  const SrcExtension: string := ".c"

  /**
   * ape_endswith: 0 when either pointer is NULL or the suffix is longer than
   * the string, otherwise whether the last |suffix| characters equal suffix.
   */
  function EndsWith(s: Option<string>, suffix: Option<string>): (r: bool)
    ensures r ==> s.Some? && suffix.Some? && |suffix.value| <= |s.value|
  {
    if s.None? || suffix.None? then false
    else if |suffix.value| > |s.value| then false
    else s.value[|s.value| - |suffix.value|..] == suffix.value
  }

  /** ape_endswith holds exactly when s is some string followed by suffix. */
  lemma EndsWithIffConcat(s: string, suffix: string)
    ensures EndsWith(Some(s), Some(suffix)) <==> exists p :: p + suffix == s
  {
    if EndsWith(Some(s), Some(suffix)) {
      var p := s[..|s| - |suffix|];
      assert p + suffix == s;
    }
    if exists p :: p + suffix == s {
      var p :| p + suffix == s;
      assert s[|s| - |suffix|..] == suffix;
    }
  }

  /** Every string ends with the empty suffix, and with itself. */
  lemma EndsWithEmptyAndSelf(s: string)
    ensures EndsWith(Some(s), Some(""))
    ensures EndsWith(Some(s), Some(s))
  {
    assert s[|s|..] == "";
    assert s[0..] == s;
  }

  /** ape_objfile_name: the source path with ".o" appended. */
  function ObjName(src: Path): (o: Path)
    ensures |o| == |src| + 2 && o[..|src|] == src
    ensures EndsWith(Some(o), Some(ObjExtension))
  {
    var o := src + ObjExtension;
    assert o[|o| - 2..] == ObjExtension;
    o
  }

  /** Distinct sources have distinct object files, so no two compiles write the same object. */
  lemma ObjNameInjective(a: Path, b: Path)
    requires ObjName(a) == ObjName(b)
    ensures a == b
  {
    assert a == ObjName(a)[..|a|];
  }

  /** The name test of the directory scans: a d_name whose first character is '.'. */
  predicate Hidden(n: Name)
  {
    n[0] == '.'
  }

  /**
   * The join of ape_builder_append_dir(_recursive): the directory path, a '/'
   * only when the path does not already end in one, then the entry name.
   * The C code reads the path's last character, so the path must be non-empty.
   */
  function Join(dir: Path, n: Name): (p: Path)
    requires |dir| > 0
    ensures |p| > |dir|
  {
    if dir[|dir| - 1] == '/' then dir + n else dir + "/" + n
  }

  /**
   * The joined path is the directory path, at most one added '/', then the
   * name; the separator is added exactly when the directory lacks one.
   */
  lemma JoinShape(dir: Path, n: Name)
    requires |dir| > 0
    ensures var p := Join(dir, n);
            && p[..|dir|] == dir
            && EndsWith(Some(p), Some(n))
            && (dir[|dir| - 1] == '/' <==> |p| == |dir| + |n|)
            && |p| <= |dir| + |n| + 1
            && p[|p| - |n| - 1] == '/'
  {
    var p := Join(dir, n);
    assert p[|p| - |n|..] == n;
  }

  /** A string ending in t, where t ends in u, ends in u. */
  lemma EndsWithTrans(s: string, t: string, u: string)
    requires EndsWith(Some(s), Some(t)) && EndsWith(Some(t), Some(u))
    ensures EndsWith(Some(s), Some(u))
  {
    assert s[|s| - |u|..] == s[|s| - |t|..][|t| - |u|..];
  }

  /** A joined path ends with the entry name, so it keeps the name's extension. */
  lemma JoinKeepsSuffix(dir: Path, n: Name, ext: string)
    requires |dir| > 0 && EndsWith(Some(n), Some(ext))
    ensures EndsWith(Some(Join(dir, n)), Some(ext))
  {
    JoinShape(dir, n);
    EndsWithTrans(Join(dir, n), n, ext);
  }
}
