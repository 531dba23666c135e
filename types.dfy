/**
 * Values shared by every part of the repository model: the records kept in the
 * staging table, the commit store and the branch table, the working tree the
 * repository looks at, and the failures its operations raise.
 */
module RepoTypes {

  type Bytes = seq<bv8>

  /** Hex digest of a file's bytes or of a commit's serialised form. */
  type Digest = string

  /** A path relative to the repository root, as the tables store it. */
  type Path = string

  type CommitId = Digest

  /** One entry of the staging table: the digest of the file when it was staged. */
  datatype StageEntry = StageEntry(hash: Digest, timestamp: string)

  /** A stored commit. `changes` is the staging table as it was when committing. */
  datatype Commit = Commit(
    message: string,
    author: string,
    timestamp: string,
    parent: Option<CommitId>,
    changes: map<Path, StageEntry>)

  /** What the working tree holds at a path. */
  datatype Node = File(content: Bytes) | Directory

  /**
   * The working tree, as far as the repository can see it: the paths below the
   * root, and the patterns of the ignore file, as a predicate on paths.
   */
  datatype WorkingTree = WorkingTree(files: map<Path, Node>, ignored: Path -> bool)

  /** Each failure the repository raises, one constructor per message. */
  datatype Error =
    | NotARepository
    | AlreadyExists
    | FileNotFound(path: Path)
    | NotAFile(path: Path)
    | FileIgnored(path: Path)
    | NothingStaged
    | CommitNotFound(id: Option<CommitId>)
    | BranchExists(name: string)
    | BranchNotFound(name: string)
    | SelfMerge
    | DirtyTreeOnSwitch
    | DirtyTreeOnMerge
    | NoCommonAncestor
    | FileNotInCommit(path: Path)
    | IsADirectory(path: Path)
      /** A lookup of a missing key in the branch table (Python's KeyError). */
    | KeyError(key: string)

  /**
   * Moving one element from the unvisited part of a set walk to the visited
   * part keeps the two parts disjoint and their union the same.
   */
  lemma MoveOne<T>(done: set<T>, todo: set<T>, x: T)
    requires x in todo && done !! todo
    ensures (done + {x}) + (todo - {x}) == done + todo
    ensures (done + {x}) !! (todo - {x})
  {
  }

  datatype Option<+T> = None | Some(value: T)

  datatype Result<+T> = Success(value: T) | Failure(error: Error)

  datatype Outcome = Pass | Fail(error: Error)
}
