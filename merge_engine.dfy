/**
 * Three-way classification of the paths recorded by two branch heads against
 * their common ancestor. The merge only classifies: it writes no file, no
 * table and no commit.
 */
module MergeEngine {
  import opened RepoTypes

  /** The two path lists a merge reports. */
  datatype MergeResult = MergeResult(conflicts: set<Path>, merged: set<Path>)

  /** The digest a commit records for `path`, or none when the path is not among its changes. */
  function HashAt(changes: map<Path, StageEntry>, path: Path): (h: Option<Digest>)
    ensures h.Some? <==> path in changes
    ensures h.Some? ==> h.value == changes[path].hash
  {
    if path in changes then Some(changes[path].hash) else None
  }

  /**
   * Both sides changed the path away from the ancestor, and not in the same
   * way. Identical digests on both sides never conflict, so a path that
   * neither side records never does.
   */
  function IsConflict(source: Option<Digest>, target: Option<Digest>, ancestor: Option<Digest>): (r: bool)
    ensures source == target ==> !r
  {
    source != ancestor && target != ancestor && source != target
  }

  /** The classification of the paths in `paths`. */
  ghost function ClassifyAmong(paths: set<Path>, source: map<Path, StageEntry>, target: map<Path, StageEntry>,
                               ancestor: map<Path, StageEntry>): MergeResult
  {
    MergeResult(
      set p | p in paths && IsConflict(HashAt(source, p), HashAt(target, p), HashAt(ancestor, p)),
      set p | p in paths && !IsConflict(HashAt(source, p), HashAt(target, p), HashAt(ancestor, p)))
  }

  /** The classification of every path either head records. */
  ghost function Classify(source: map<Path, StageEntry>, target: map<Path, StageEntry>,
                          ancestor: map<Path, StageEntry>): MergeResult
  {
    ClassifyAmong(source.Keys + target.Keys, source, target, ancestor)
  }

  /** Classifying one more path adds it to the list the three-way test picks. */
  lemma ClassifyAmongStep(done: set<Path>, path: Path, source: map<Path, StageEntry>,
                          target: map<Path, StageEntry>, ancestor: map<Path, StageEntry>)
    requires path !in done
    ensures var before, after := ClassifyAmong(done, source, target, ancestor), ClassifyAmong(done + {path}, source, target, ancestor);
      if IsConflict(HashAt(source, path), HashAt(target, path), HashAt(ancestor, path))
      then after.conflicts == before.conflicts + {path} && after.merged == before.merged
      else after.conflicts == before.conflicts && after.merged == before.merged + {path}
  {
  }

  /** The loop of the merge over the union of the two heads' paths. */
  method ClassifyPaths(source: map<Path, StageEntry>, target: map<Path, StageEntry>,
                       ancestor: map<Path, StageEntry>) returns (r: MergeResult)
    ensures r == Classify(source, target, ancestor)
  {
    var allFiles := source.Keys + target.Keys;
    var conflicts: set<Path> := {};
    var merged: set<Path> := {};
    var todo := allFiles;
    ghost var done: set<Path> := {};
    while todo != {}
      invariant done + todo == allFiles && done !! todo
      invariant conflicts == ClassifyAmong(done, source, target, ancestor).conflicts
      invariant merged == ClassifyAmong(done, source, target, ancestor).merged
      decreases |todo|
    {
      var path :| path in todo;
      var sourceChange := HashAt(source, path);
      var targetChange := HashAt(target, path);
      var ancestorChange := HashAt(ancestor, path);
      ClassifyAmongStep(done, path, source, target, ancestor);
      MoveOne(done, todo, path);
      if IsConflict(sourceChange, targetChange, ancestorChange) {
        conflicts := conflicts + {path};
      } else {
        merged := merged + {path};
      }
      todo := todo - {path};
      done := done + {path};
    }
    assert done == allFiles;
    r := MergeResult(conflicts, merged);
  }

  /**
   * Every path of either head lands in exactly one of the two lists, and it
   * lands among the conflicts exactly when the three-way test says so.
   */
  lemma ClassifyPartition(source: map<Path, StageEntry>, target: map<Path, StageEntry>,
                          ancestor: map<Path, StageEntry>)
    ensures var r := Classify(source, target, ancestor);
      && r.conflicts + r.merged == source.Keys + target.Keys
      && r.conflicts !! r.merged
      && forall p :: p in r.conflicts <==>
           p in source.Keys + target.Keys && IsConflict(HashAt(source, p), HashAt(target, p), HashAt(ancestor, p))
  {
  }

  /**
   * The three-way test over the equal/unequal cases: no conflict when both sides
   * agree, when either side kept the ancestor's digest; a conflict otherwise.
   */
  lemma ConflictCases(s: Option<Digest>, t: Option<Digest>, a: Option<Digest>)
    ensures s == t ==> !IsConflict(s, t, a)
    ensures s == a ==> !IsConflict(s, t, a)
    ensures t == a ==> !IsConflict(s, t, a)
    ensures s != a && t != a && s != t ==> IsConflict(s, t, a)
  {
  }

  /** Swapping the two sides of a merge does not change which paths conflict. */
  lemma {:induction false} ClassifySymmetric(source: map<Path, StageEntry>, target: map<Path, StageEntry>,
                                             ancestor: map<Path, StageEntry>)
    ensures Classify(source, target, ancestor) == Classify(target, source, ancestor)
  {
    assert source.Keys + target.Keys == target.Keys + source.Keys;
  }

  /**
   * When the ancestor is one of the heads (one side did not move since the
   * fork), nothing conflicts.
   */
  lemma FastForwardHasNoConflicts(source: map<Path, StageEntry>, target: map<Path, StageEntry>)
    ensures Classify(source, target, target).conflicts == {}
    ensures Classify(source, target, source).conflicts == {}
  {
  }
}
