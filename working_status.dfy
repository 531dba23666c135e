/**
 * What the repository sees of the working tree: which paths are ignored, which
 * may be staged, and how the status report sorts the visible files against the
 * staging table. The directory walk itself is the map of the working tree.
 */
module WorkingStatus {
  import opened RepoTypes

  /** The repository's own directory, relative to the root. */
  const RepoDir: string := ".repo"

  /**
   * A path is ignored when its text starts with the repository directory's (a
   * string prefix test, so `.repository.txt` is ignored too) or when an
   * ignore pattern matches it.
   */
  function IsIgnored(tree: WorkingTree, path: Path): (r: bool)
    ensures |RepoDir| <= |path| && path[..|RepoDir|] == RepoDir ==> r
    ensures tree.ignored(path) ==> r
    ensures !r <==> !tree.ignored(path) && (|path| < |RepoDir| || path[..|RepoDir|] != RepoDir)
  {
    RepoDir <= path || tree.ignored(path)
  }

  /** A regular file of the working tree that no ignore rule hides. */
  predicate Visible(tree: WorkingTree, path: Path)
  {
    path in tree.files && tree.files[path].File? && !IsIgnored(tree, path)
  }

  /** The checks before staging, in their order: the path exists, is a file, is not ignored. */
  function StageCheck(tree: WorkingTree, path: Path): (r: Outcome)
    ensures r.Pass? <==> Visible(tree, path)
    ensures path !in tree.files ==> r == Fail(FileNotFound(path))
    ensures path in tree.files && tree.files[path].Directory? ==> r == Fail(NotAFile(path))
    ensures r.Fail? && path in tree.files && tree.files[path].File? ==> r == Fail(FileIgnored(path))
  {
    if path !in tree.files then Fail(FileNotFound(path))
    else if tree.files[path].Directory? then Fail(NotAFile(path))
    else if IsIgnored(tree, path) then Fail(FileIgnored(path))
    else Pass
  }

  /** The three path lists of the status report. */
  datatype Status = Status(staged: set<Path>, modified: set<Path>, untracked: set<Path>)

  /** The status of the visible files among `paths`. */
  ghost function StatusAmong(paths: set<Path>, staging: map<Path, StageEntry>, tree: WorkingTree,
                             digest: Bytes -> Digest): Status
  {
    Status(
      set p | p in paths && Visible(tree, p) && p in staging && digest(tree.files[p].content) == staging[p].hash,
      set p | p in paths && Visible(tree, p) && p in staging && digest(tree.files[p].content) != staging[p].hash,
      set p | p in paths && Visible(tree, p) && p !in staging)
  }

  /** The status report over the whole working tree. */
  ghost function StatusOf(staging: map<Path, StageEntry>, tree: WorkingTree, digest: Bytes -> Digest): Status
  {
    StatusAmong(tree.files.Keys, staging, tree, digest)
  }

  /** Nothing staged and nothing modified: switching and merging are allowed. */
  predicate IsClean(s: Status)
  {
    s.staged == {} && s.modified == {}
  }

  /** Looking at one more path adds it to at most one list, the one get_status picks. */
  lemma StatusAmongStep(done: set<Path>, path: Path, staging: map<Path, StageEntry>, tree: WorkingTree,
                        digest: Bytes -> Digest)
    requires path !in done
    ensures var before := StatusAmong(done, staging, tree, digest);
      StatusAmong(done + {path}, staging, tree, digest) ==
        if !Visible(tree, path) then before
        else if path !in staging then Status(before.staged, before.modified, before.untracked + {path})
        else if digest(tree.files[path].content) != staging[path].hash
        then Status(before.staged, before.modified + {path}, before.untracked)
        else Status(before.staged + {path}, before.modified, before.untracked)
  {
  }

  /** The walk over the working tree that sorts each visible file into one list. */
  method Scan(staging: map<Path, StageEntry>, tree: WorkingTree, digest: Bytes -> Digest) returns (s: Status)
    ensures s == StatusOf(staging, tree, digest)
  {
    var staged: set<Path> := {};
    var modified: set<Path> := {};
    var untracked: set<Path> := {};
    var todo := tree.files.Keys;
    ghost var done: set<Path> := {};
    while todo != {}
      invariant done + todo == tree.files.Keys && done !! todo
      invariant Status(staged, modified, untracked) == StatusAmong(done, staging, tree, digest)
      decreases |todo|
    {
      var path :| path in todo;
      StatusAmongStep(done, path, staging, tree, digest);
      MoveOne(done, todo, path);
      todo := todo - {path};
      done := done + {path};
      if IsIgnored(tree, path) {
        continue;
      }
      if tree.files[path].File? {
        if path in staging {
          var currentHash := digest(tree.files[path].content);
          if currentHash != staging[path].hash {
            modified := modified + {path};
          } else {
            staged := staged + {path};
          }
        } else {
          untracked := untracked + {path};
        }
      }
    }
    s := Status(staged, modified, untracked);
  }

  /** Each visible file is reported in exactly one list, and nothing else is reported. */
  lemma StatusPartition(staging: map<Path, StageEntry>, tree: WorkingTree, digest: Bytes -> Digest)
    ensures var s := StatusOf(staging, tree, digest);
      && s.staged + s.modified + s.untracked == set p | p in tree.files && Visible(tree, p)
      && s.staged !! s.modified && s.staged !! s.untracked && s.modified !! s.untracked
  {
  }

  /**
   * The tree is clean exactly when no staged path is still a visible file: a
   * staged file that was deleted or is now ignored does not block a switch.
   */
  lemma CleanIffNoStagedFileVisible(staging: map<Path, StageEntry>, tree: WorkingTree, digest: Bytes -> Digest)
    ensures IsClean(StatusOf(staging, tree, digest)) <==> forall p :: p in staging ==> !Visible(tree, p)
  {
    var s := StatusOf(staging, tree, digest);
    if !forall p :: p in staging ==> !Visible(tree, p) {
      var p :| p in staging && Visible(tree, p);
      assert p in s.staged || p in s.modified;
    }
  }
}
