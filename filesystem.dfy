/**
 * The part of the filesystem that apebuild.h observes: what stat(2) reports
 * for a path (its kind and st_mtime) and what opendir/readdir list for a
 * directory. A path that stat cannot resolve is absent from `nodes`; a path
 * that opendir cannot open is absent from `listings`.
 */
module FileSys {
  type Path = string

  /** A d_name as readdir returns it: never empty. */
  type Name = s: string | |s| > 0 witness "a"

  datatype Kind = Regular | Directory | OtherKind

  datatype Inode = Inode(kind: Kind, mtime: int)

  datatype FileSystem = FileSystem(nodes: map<Path, Inode>, listings: map<Path, seq<Name>>)
}
