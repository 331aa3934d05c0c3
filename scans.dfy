/**
 * What the directory scans of ape_builder_append_dir and
 * ape_builder_append_dir_recursive append, and when they report an error.
 */
module Scans {
  import opened Wrappers
  import opened FileSys
  import opened Paths
  import opened Declare

  /** A path the scans may append: a regular file whose name ends in ".c". */
  ghost predicate SourceFile(fs: FileSystem, p: Path)
  {
    EndsWith(Some(p), Some(SrcExtension)) && p in fs.nodes && fs.nodes[p].kind == Regular
  }

  /** An entry the non-recursive scan appends. */
  ghost predicate Selected(fs: FileSystem, dir: Path, n: Name)
    requires |dir| > 0
  {
    !Hidden(n) && EndsWith(Some(n), Some(SrcExtension)) && SourceFile(fs, Join(dir, n))
  }

  /**
   * The non-recursive scan appends exactly the joined paths of the entries it
   * selects, as long as no stat fails; and it fails only on
   * a ".c" entry, not hidden, that cannot be stat'ed.
   */
  lemma {:induction false} ScanEntriesSpec(fs: FileSystem, dir: Path, names: seq<Name>)
    requires |dir| > 0
    ensures var s := ScanEntries(fs, dir, names);
            && (forall p :: p in s.added ==> SourceFile(fs, p))
            && (s.rc == 0 <==> forall i :: 0 <= i < |names| && !Hidden(names[i]) && EndsWith(Some(names[i]), Some(SrcExtension))
                                         ==> Join(dir, names[i]) in fs.nodes)
            && (s.rc == 0 ==> forall i :: 0 <= i < |names| && Selected(fs, dir, names[i]) ==> Join(dir, names[i]) in s.added)
            && (forall p :: p in s.added ==> exists i :: 0 <= i < |names| && Selected(fs, dir, names[i]) && p == Join(dir, names[i]))
  {
    if names != [] {
      var n := names[0];
      ScanEntriesSpec(fs, dir, names[1..]);
      assert forall i :: 1 <= i < |names| ==> names[i] == names[1..][i - 1];
      if !Hidden(n) && EndsWith(Some(n), Some(SrcExtension)) {
        JoinKeepsSuffix(dir, n, SrcExtension);
      }
      var s := ScanEntries(fs, dir, names);
      forall p | p in s.added
        ensures exists i :: 0 <= i < |names| && Selected(fs, dir, names[i]) && p == Join(dir, names[i])
      {
        if p !in ScanEntries(fs, dir, names[1..]).added {
          assert Selected(fs, dir, names[0]) && p == Join(dir, names[0]);
        } else {
          var i :| 0 <= i < |names[1..]| && Selected(fs, dir, names[1..][i]) && p == Join(dir, names[1..][i]);
          assert names[i + 1] == names[1..][i];
        }
      }
    }
  }

  /** ape_builder_append_dir fails when the directory cannot be opened, and otherwise as its loop does. */
  lemma AppendDirSpecProps(fs: FileSystem, dir: Path)
    requires |dir| > 0
    ensures var s := AppendDirSpec(fs, dir);
            && (dir !in fs.listings ==> s == Scan([], 1))
            && forall p :: p in s.added ==> SourceFile(fs, p)
  {
    if dir in fs.listings {
      ScanEntriesSpec(fs, dir, fs.listings[dir]);
    }
  }

  /**
   * Everything the recursive scan appends is a regular ".c" file, found in
   * this directory or, through descents, below it: its path starts with the
   * directory's path and is longer.
   */
  lemma {:induction false} RecAppendsSources(fs: FileSystem, dir: Path)
    requires |dir| > 0
    ensures forall p :: p in AppendDirRecSpec(fs, dir).added ==>
              SourceFile(fs, p) && |p| > |dir| && p[..|dir|] == dir
    decreases Deeper(fs, dir), 1, 0
  {
    if dir in fs.listings {
      RecEntriesAppendSources(fs, dir, fs.listings[dir]);
    }
  }

  lemma {:induction false} RecEntriesAppendSources(fs: FileSystem, dir: Path, names: seq<Name>)
    requires |dir| > 0
    ensures forall p :: p in ScanEntriesRec(fs, dir, names).added ==>
              SourceFile(fs, p) && |p| > |dir| && p[..|dir|] == dir
    decreases Deeper(fs, dir), 0, |names|
  {
    if names != [] {
      var n := names[0];
      RecEntriesAppendSources(fs, dir, names[1..]);
      if !Hidden(n) {
        var p := Join(dir, n);
        if p in fs.nodes {
          JoinShape(dir, n);
          if fs.nodes[p].kind == Directory {
            DeeperShrinks(fs, dir, p);
            RecAppendsSources(fs, p);
            forall q | q in AppendDirRecSpec(fs, p).added
              ensures q[..|dir|] == dir
            {
              assert q[..|p|][..|dir|] == q[..|dir|];
            }
          }
          if EndsWith(Some(n), Some(SrcExtension)) {
            JoinKeepsSuffix(dir, n, SrcExtension);
          }
        }
      }
    }
  }

  /** An entry the recursive scan descends into: not hidden, and a directory. */
  ghost predicate Descended(fs: FileSystem, dir: Path, n: Name)
    requires |dir| > 0
  {
    !Hidden(n) && Join(dir, n) in fs.nodes && fs.nodes[Join(dir, n)].kind == Directory
  }

  /**
   * A successful recursive scan appends every non-hidden regular ".c" file
   * of its own directory.
   */
  lemma {:induction false} RecFindsSources(fs: FileSystem, dir: Path, names: seq<Name>, i: nat)
    requires |dir| > 0
    requires i < |names| && Selected(fs, dir, names[i])
    requires ScanEntriesRec(fs, dir, names).rc == 0
    ensures Join(dir, names[i]) in ScanEntriesRec(fs, dir, names).added
  {
    if i > 0 {
      if Hidden(names[0]) || Join(dir, names[0]) in fs.nodes {
        assert names[1..][i - 1] == names[i];
        RecFindsSources(fs, dir, names[1..], i - 1);
      }
    }
  }

  /**
   * The recursive scan appends nothing else: each path it appends is either
   * a selected entry of this directory (not hidden, so hidden entries are
   * skipped) or something the scan of a non-hidden subdirectory appends.
   */
  lemma {:induction false} RecAppendsOnlySelected(fs: FileSystem, dir: Path, names: seq<Name>)
    requires |dir| > 0
    ensures forall p :: p in ScanEntriesRec(fs, dir, names).added ==>
              exists i :: 0 <= i < |names| &&
                ((Selected(fs, dir, names[i]) && p == Join(dir, names[i])) ||
                 (Descended(fs, dir, names[i]) && p in AppendDirRecSpec(fs, Join(dir, names[i])).added))
  {
    if names != [] {
      RecAppendsOnlySelected(fs, dir, names[1..]);
      var e := RecEntry(fs, dir, names[0]);
      forall p | p in ScanEntriesRec(fs, dir, names).added
        ensures exists i :: 0 <= i < |names| &&
                  ((Selected(fs, dir, names[i]) && p == Join(dir, names[i])) ||
                   (Descended(fs, dir, names[i]) && p in AppendDirRecSpec(fs, Join(dir, names[i])).added))
      {
        if p in e.value {
          var n := names[0];
          var q := Join(dir, n);
          if EndsWith(Some(n), Some(SrcExtension)) && fs.nodes[q].kind == Regular {
            JoinKeepsSuffix(dir, n, SrcExtension);
          }
          assert (Selected(fs, dir, names[0]) && p == Join(dir, names[0])) ||
                 (Descended(fs, dir, names[0]) && p in AppendDirRecSpec(fs, Join(dir, names[0])).added);
        } else {
          var j :| 0 <= j < |names[1..]| &&
                   ((Selected(fs, dir, names[1..][j]) && p == Join(dir, names[1..][j])) ||
                    (Descended(fs, dir, names[1..][j]) && p in AppendDirRecSpec(fs, Join(dir, names[1..][j])).added));
          assert names[1..][j] == names[j + 1];
        }
      }
    }
  }

  /**
   * The recursive scan reports an error only for its own directory: when it
   * cannot be opened or one of its non-hidden entries cannot be stat'ed. A
   * failure inside a subdirectory is ignored.
   */
  lemma {:induction false} RecErrorIsLocal(fs: FileSystem, dir: Path, names: seq<Name>)
    requires |dir| > 0
    ensures ScanEntriesRec(fs, dir, names).rc == 0 <==>
            forall i :: 0 <= i < |names| && !Hidden(names[i]) ==> Join(dir, names[i]) in fs.nodes
  {
    if names != [] {
      RecErrorIsLocal(fs, dir, names[1..]);
      assert forall i :: 1 <= i < |names| ==> names[i] == names[1..][i - 1];
    }
  }

  /**
   * A successful recursive scan descends into every non-hidden
   * subdirectory: whatever the scan of that subdirectory appends, this scan
   * appends too, even when that scan fails.
   */
  lemma {:induction false} RecDescends(fs: FileSystem, dir: Path, names: seq<Name>, i: nat)
    requires |dir| > 0
    requires i < |names| && !Hidden(names[i])
    requires ScanEntriesRec(fs, dir, names).rc == 0
    requires Join(dir, names[i]) in fs.nodes && fs.nodes[Join(dir, names[i])].kind == Directory
    ensures forall p :: p in AppendDirRecSpec(fs, Join(dir, names[i])).added ==> p in ScanEntriesRec(fs, dir, names).added
  {
    if i > 0 {
      if Hidden(names[0]) || Join(dir, names[0]) in fs.nodes {
        assert names[1..][i - 1] == names[i];
        RecDescends(fs, dir, names[1..], i - 1);
      }
    }
  }
}
