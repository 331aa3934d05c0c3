/**
 * The staleness decision of apebuild.h (ape_needs_rebuild, ape_needs_rebuild1):
 * an output must be rebuilt when it cannot be stat'ed, when some input cannot
 * be stat'ed, or when some input is strictly newer than it.
 */
module Staleness {
  import opened FileSys

  /** The decision stated over all inputs at once. */
  ghost predicate Stale(fs: FileSystem, out: Path, ins: seq<Path>)
  {
    out !in fs.nodes ||
    exists i :: 0 <= i < |ins| && (ins[i] !in fs.nodes || fs.nodes[ins[i]].mtime > fs.nodes[out].mtime)
  }

  /**
   * ape_needs_rebuild: stat the output, then the inputs in order, returning 1
   * at the first input that fails to stat or is newer, and 0 after the last.
   */
  function NeedsRebuild(fs: FileSystem, out: Path, ins: seq<Path>): (r: int)
    ensures r == 0 || r == 1
    ensures out !in fs.nodes ==> r == 1
  {
    if out !in fs.nodes then 1 else ScanInputs(fs, fs.nodes[out].mtime, ins)
  }

  /** The loop of ape_needs_rebuild over the remaining inputs, given the output's mtime. */
  function ScanInputs(fs: FileSystem, outTime: int, ins: seq<Path>): (r: int)
    ensures r == 0 || r == 1
  {
    if ins == [] then 0
    else if ins[0] !in fs.nodes then 1
    else if fs.nodes[ins[0]].mtime > outTime then 1
    else ScanInputs(fs, outTime, ins[1..])
  }

  /** ape_needs_rebuild1: the one-input form. */
  function NeedsRebuild1(fs: FileSystem, out: Path, input: Path): (r: int)
    ensures r == 0 || r == 1
  {
    NeedsRebuild(fs, out, [input])
  }

  lemma {:induction false} ScanInputsSpec(fs: FileSystem, outTime: int, ins: seq<Path>)
    ensures ScanInputs(fs, outTime, ins) == 1 <==>
            exists i :: 0 <= i < |ins| && (ins[i] !in fs.nodes || fs.nodes[ins[i]].mtime > outTime)
  {
    if ins != [] {
      ScanInputsSpec(fs, outTime, ins[1..]);
      if ScanInputs(fs, outTime, ins[1..]) == 1 {
        var i :| 0 <= i < |ins[1..]| && (ins[1..][i] !in fs.nodes || fs.nodes[ins[1..][i]].mtime > outTime);
        assert ins[i + 1] == ins[1..][i];
      }
      if exists i :: 0 <= i < |ins| && (ins[i] !in fs.nodes || fs.nodes[ins[i]].mtime > outTime) {
        var i :| 0 <= i < |ins| && (ins[i] !in fs.nodes || fs.nodes[ins[i]].mtime > outTime);
        if i > 0 {
          assert ins[1..][i - 1] == ins[i];
        }
      }
    }
  }

  /** ape_needs_rebuild returns 1 exactly when the output is stale, and 0 otherwise. */
  lemma NeedsRebuildSpec(fs: FileSystem, out: Path, ins: seq<Path>)
    ensures NeedsRebuild(fs, out, ins) == 1 <==> Stale(fs, out, ins)
    ensures NeedsRebuild(fs, out, ins) == 0 <==> !Stale(fs, out, ins)
  {
    if out in fs.nodes {
      ScanInputsSpec(fs, fs.nodes[out].mtime, ins);
    }
  }

  /** A missing output is stale whatever the inputs, even when there are none. */
  lemma MissingOutputIsStale(fs: FileSystem, out: Path, ins: seq<Path>)
    requires out !in fs.nodes
    ensures NeedsRebuild(fs, out, ins) == 1
  {
  }

  /** With the output present, no inputs means nothing to rebuild. */
  lemma NoInputsIsFresh(fs: FileSystem, out: Path)
    requires out in fs.nodes
    ensures NeedsRebuild(fs, out, []) == 0
  {
  }

  /** An input that cannot be stat'ed forces a rebuild. */
  lemma {:induction false} UnstatableInputIsStale(fs: FileSystem, out: Path, ins: seq<Path>, i: nat)
    requires i < |ins| && ins[i] !in fs.nodes
    ensures NeedsRebuild(fs, out, ins) == 1
  {
    NeedsRebuildSpec(fs, out, ins);
  }

  /** Equal timestamps are not stale: only a strictly newer input triggers a rebuild. */
  lemma EqualTimesAreFresh(fs: FileSystem, out: Path, input: Path)
    requires out in fs.nodes && input in fs.nodes
    requires fs.nodes[input].mtime == fs.nodes[out].mtime
    ensures NeedsRebuild1(fs, out, input) == 0
  {
    NeedsRebuildSpec(fs, out, [input]);
  }

  /**
   * The one-input form: 1 exactly when the output or the input is missing or
   * the input is strictly newer.
   */
  lemma NeedsRebuild1Spec(fs: FileSystem, out: Path, input: Path)
    ensures NeedsRebuild1(fs, out, input) == 1 <==>
            out !in fs.nodes || input !in fs.nodes || fs.nodes[input].mtime > fs.nodes[out].mtime
  {
    NeedsRebuildSpec(fs, out, [input]);
  }

  /**
   * Touching one input (giving it an mtime later than the output's) makes the
   * output stale, whatever the other inputs are.
   */
  lemma {:induction false} TouchMakesStale(fs: FileSystem, out: Path, ins: seq<Path>, i: nat, t: int)
    requires i < |ins| && out in fs.nodes && ins[i] != out
    requires t > fs.nodes[out].mtime
    ensures var touched := fs.(nodes := fs.nodes[ins[i] := Inode(if ins[i] in fs.nodes then fs.nodes[ins[i]].kind else Regular, t)]);
            NeedsRebuild(touched, out, ins) == 1
  {
    var touched := fs.(nodes := fs.nodes[ins[i] := Inode(if ins[i] in fs.nodes then fs.nodes[ins[i]].kind else Regular, t)]);
    NeedsRebuildSpec(touched, out, ins);
    assert touched.nodes[ins[i]].mtime > touched.nodes[out].mtime;
  }

  /** Adding inputs can only make an output staler. */
  lemma {:induction false} StaleMonotonic(fs: FileSystem, out: Path, ins: seq<Path>, more: seq<Path>)
    requires NeedsRebuild(fs, out, ins) == 1
    ensures NeedsRebuild(fs, out, ins + more) == 1
  {
    NeedsRebuildSpec(fs, out, ins);
    NeedsRebuildSpec(fs, out, ins + more);
    if out in fs.nodes {
      var i :| 0 <= i < |ins| && (ins[i] !in fs.nodes || fs.nodes[ins[i]].mtime > fs.nodes[out].mtime);
      assert (ins + more)[i] == ins[i];
    }
  }

  /**
   * The decision over several inputs is the disjunction of the one-input
   * decisions: stale with respect to the list iff stale with respect to one of its members
   * (or the output is missing).
   */
  lemma {:induction false} NeedsRebuildIsAnyInput(fs: FileSystem, out: Path, ins: seq<Path>)
    ensures NeedsRebuild(fs, out, ins) == 1 <==>
            out !in fs.nodes || exists i :: 0 <= i < |ins| && NeedsRebuild1(fs, out, ins[i]) == 1
  {
    NeedsRebuildSpec(fs, out, ins);
    forall i | 0 <= i < |ins|
      ensures NeedsRebuild1(fs, out, ins[i]) == 1 <==>
              out !in fs.nodes || ins[i] !in fs.nodes || fs.nodes[ins[i]].mtime > fs.nodes[out].mtime
    {
      NeedsRebuild1Spec(fs, out, ins[i]);
    }
  }
}
