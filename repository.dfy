/**
 * The repository: a staging table, a commit store and a branch table, each read
 * and rewritten by the operations below.
 *
 * The branch table is one map from names to JSON values, exactly as stored: a
 * branch name maps to its head commit id or to none, and the reserved key
 * `current` maps to the name of the active branch. Branch names and the
 * reserved key share one namespace.
 *
 * SHA-256 is left uninterpreted: `digest` stands for the hash of a file's
 * bytes and `commitId` for the hash of a commit's canonical JSON form. The
 * clock, the USER variable and the working tree are parameters.
 */
module Svcs {
  import opened RepoTypes
  import opened CommitGraph
  import opened MergeEngine
  import opened WorkingStatus

  /** The key of the branch table that names the active branch. */
  const Reserved: string := "current"

  /** The branch that a new repository starts on. */
  const DefaultBranch: string := "main"

  /** The branch table without the reserved key, as list_branches reports it. */
  function Heads(branches: map<string, Option<string>>): (r: map<string, Option<string>>)
    ensures r.Keys == branches.Keys - {Reserved}
    ensures forall k :: k in r ==> r[k] == branches[k]
  {
    map k | k in branches && k != Reserved :: branches[k]
  }

  /**
   * The author recorded in a commit: the given author unless it is missing or
   * empty, else the USER variable, else `unknown`.
   */
  function AuthorName(author: Option<string>, user: Option<string>): (r: string)
    ensures author.Some? && author.value != "" ==> r == author.value
    ensures (author.None? || author.value == "") && user.Some? ==> r == user.value
    ensures (author.None? || author.value == "") && user.None? ==> r == "unknown"
  {
    if author.Some? && author.value != "" then author.value
    else if user.Some? then user.value
    else "unknown"
  }

  class Repository {
    /** Hash of a file's bytes. */
    const digest: Bytes -> Digest
    /** Hash of a commit's canonical serialised form: its id. */
    const commitId: Commit -> CommitId

    /** Whether the repository directory exists. */
    var initialized: bool
    var staging: map<Path, StageEntry>
    var commits: map<CommitId, Commit>
    var branches: map<string, Option<string>>

    /** Creation order of the stored commits; every rank is below `nextRank`. */
    ghost var rank: map<CommitId, nat>
    ghost var nextRank: nat

    /**
     * What every operation keeps: no tables before init; afterwards the
     * reserved key names some branch name; stored parents are older than their
     * children, so walking parent links terminates.
     */
    ghost predicate Valid()
      reads this
    {
      && (!initialized ==> staging == map[] && commits == map[] && branches == map[])
      && (initialized ==> Reserved in branches && branches[Reserved].Some?)
      && Ranked(commits, rank)
      && (forall id :: id in rank ==> rank[id] < nextRank)
    }

    /** The active branch's name, the value of the reserved key. */
    function CurrentName(): string
      reads this
      requires Valid() && initialized
    {
      branches[Reserved].value
    }

    /**
     * The integrity the repository relies on: the active branch is a real
     * branch, every branch head and every parent link resolves to a stored commit.
     * Every operation keeps it except switching to the reserved key itself.
     */
    ghost predicate Consistent()
      reads this
    {
      && Valid()
      && (initialized ==>
            && CurrentName() in branches
            && CurrentName() != Reserved
            && (forall k :: k in branches && k != Reserved && branches[k].Some? ==> branches[k].value in commits)
            && Closed(commits))
    }

    /** A repository object for a directory that has no repository yet. */
    constructor (digest: Bytes -> Digest, commitId: Commit -> CommitId)
      ensures Valid() && Consistent() && !initialized
      ensures this.digest == digest && this.commitId == commitId
    {
      this.digest := digest;
      this.commitId := commitId;
      initialized := false;
      staging := map[];
      commits := map[];
      branches := map[];
      rank := map[];
      nextRank := 0;
    }

    /** Creates the tables: an empty staging table and the branch `main` without commits. */
    method Init() returns (r: Outcome)
      requires Valid()
      modifies this
      ensures Valid()
      ensures old(initialized) ==> r == Fail(AlreadyExists) && unchanged(this)
      ensures !old(initialized) ==>
        && r == Pass && initialized
        && staging == map[] && commits == map[]
        && branches == map[DefaultBranch := None, Reserved := Some(DefaultBranch)]
        && Consistent()
      ensures old(Consistent()) ==> Consistent()
    {
      if initialized {
        return Fail(AlreadyExists);
      }
      initialized := true;
      staging := map[];
      branches := map[DefaultBranch := None, Reserved := Some(DefaultBranch)];
      r := Pass;
    }

    /** Reads the status report of the working tree against the staging table. */
    method GetStatus(tree: WorkingTree) returns (r: Result<Status>)
      requires Valid()
      ensures !initialized ==> r == Failure(NotARepository)
      ensures initialized ==> r == Success(StatusOf(staging, tree, digest))
    {
      if !initialized {
        return Failure(NotARepository);
      }
      var status := Scan(staging, tree, digest);
      r := Success(status);
    }

    /**
     * Records the digest of the file's current bytes under its path, replacing
     * any earlier entry for it; every other entry stays as it was.
     */
    method StageFile(path: Path, tree: WorkingTree, now: string) returns (r: Outcome)
      requires Valid()
      modifies this`staging
      ensures Valid()
      ensures !initialized ==> r == Fail(NotARepository)
      ensures initialized ==> r == StageCheck(tree, path)
      ensures r.Fail? ==> staging == old(staging)
      ensures r.Pass? ==> staging == old(staging)[path := StageEntry(digest(tree.files[path].content), now)]
      ensures r.Pass? ==> (staging.Keys == old(staging).Keys + {path}
                           && forall p :: p in old(staging) && p != path ==> staging[p] == old(staging)[p])
      ensures old(Consistent()) ==> Consistent()
    {
      if !initialized {
        return Fail(NotARepository);
      }
      if path !in tree.files {
        return Fail(FileNotFound(path));
      }
      if !tree.files[path].File? {
        return Fail(NotAFile(path));
      }
      if IsIgnored(tree, path) {
        return Fail(FileIgnored(path));
      }
      var fileHash := digest(tree.files[path].content);
      staging := staging[path := StageEntry(fileHash, now)];
      r := Pass;
    }

    /** `id` is neither stored nor named by a stored parent link or by the branch table. */
    ghost predicate Unused(id: CommitId)
      reads this
    {
      && id !in commits
      && (forall k :: k in commits ==> commits[k].parent != Some(id))
      && (forall k :: k in branches ==> branches[k] != Some(id))
    }

    /** The commit that committing now would write, when the active branch can be read. */
    ghost function Pending(message: string, author: Option<string>, user: Option<string>, now: string): Commit
      reads this
      requires Valid() && initialized && CurrentName() in branches
    {
      RepoTypes.Commit.Commit(message, AuthorName(author, user), now, branches[CurrentName()], staging)
    }

    /**
     * Snapshots the staging table into a new commit whose parent is the active
     * branch's head, moves that branch to the new commit and empties staging.
     * The id of the new commit is assumed not to collide with a stored id, a
     * stored parent link or a head: SHA-256 is taken to be collision-free and
     * the clock never to repeat a timestamp.
     */
    method Commit(message: string, author: Option<string>, user: Option<string>, now: string)
      returns (r: Result<CommitId>)
      requires Valid()
      requires initialized && CurrentName() in branches ==> Unused(commitId(Pending(message, author, user, now)))
      modifies this
      ensures Valid()
      ensures !old(initialized) ==> r == Failure(NotARepository)
      ensures old(initialized) && old(staging) == map[] ==> r == Failure(NothingStaged)
      ensures old(initialized) && old(staging) != map[] && old(CurrentName()) !in old(branches) ==>
                r == Failure(KeyError(old(CurrentName())))
      ensures r.Failure? ==> unchanged(this)
      ensures r.Success? <==> old(initialized) && old(staging) != map[] && old(CurrentName()) in old(branches)
      ensures r.Success? ==>
        && old(Unused(r.value))
        && r.value in commits && commits == old(commits)[r.value := commits[r.value]]
        && commits[r.value].parent == old(branches[CurrentName()])
        && commits[r.value].changes == old(staging)
        && commits[r.value].message == message
        && commits[r.value].author == AuthorName(author, user)
        && commits[r.value].timestamp == now
        && r.value == commitId(commits[r.value])
        && GetCommit(Some(r.value)) == Success(commits[r.value])
        && branches == old(branches)[old(CurrentName()) := Some(r.value)]
        && staging == map[]
      ensures old(Consistent()) ==> Consistent()
    {
      if !initialized {
        return Failure(NotARepository);
      }
      if staging == map[] {
        return Failure(NothingStaged);
      }
      var currentBranch := branches[Reserved].value;
      if currentBranch !in branches {
        return Failure(KeyError(currentBranch));
      }
      var parentCommit := branches[currentBranch];
      var commit := RepoTypes.Commit.Commit(message, AuthorName(author, user), now, parentCommit, staging);
      var commitHash := commitId(commit);
      ghost var before := commits;
      commits := commits[commitHash := commit];
      forall id | id in commits && commits[id].parent.Some? && commits[id].parent.value in commits
        ensures commits[id].parent.value in rank && rank[commits[id].parent.value] < nextRank
        ensures id != commitHash ==> commits[id].parent.value in before
      {
      }
      rank := rank[commitHash := nextRank];
      nextRank := nextRank + 1;
      branches := branches[currentBranch := Some(commitHash)];
      staging := map[];
      r := Success(commitHash);
    }

    /** Looks a commit up by id; a head without commits finds nothing. */
    function GetCommit(id: Option<CommitId>): (r: Result<Commit>)
      reads this
      ensures r.Success? <==> id.Some? && id.value in commits
      ensures r.Success? ==> r.value == commits[id.value]
      ensures r.Failure? ==> r.error == CommitNotFound(id)
    {
      if id.Some? && id.value in commits then Success(commits[id.value]) else Failure(CommitNotFound(id))
    }

    /**
     * Adds a branch at the active branch's head. Fails for any name already a
     * key of the table, the reserved key included.
     */
    method CreateBranch(name: string) returns (r: Outcome)
      requires Valid()
      modifies this`branches
      ensures Valid()
      ensures !initialized ==> r == Fail(NotARepository)
      ensures initialized && name in old(branches) ==> r == Fail(BranchExists(name))
      ensures initialized && name !in old(branches) && old(CurrentName()) !in old(branches) ==>
                r == Fail(KeyError(old(CurrentName())))
      ensures r.Fail? ==> branches == old(branches)
      ensures r.Pass? <==> initialized && name !in old(branches) && old(CurrentName()) in old(branches)
      ensures r.Pass? ==>
        && name != Reserved
        && branches == old(branches)[name := old(branches[CurrentName()])]
        && CurrentName() == old(CurrentName())
      ensures old(Consistent()) ==> Consistent()
    {
      if !initialized {
        return Fail(NotARepository);
      }
      if name in branches {
        return Fail(BranchExists(name));
      }
      var currentBranch := branches[Reserved].value;
      if currentBranch !in branches {
        return Fail(KeyError(currentBranch));
      }
      branches := branches[name := branches[currentBranch]];
      r := Pass;
    }

    /** Every branch with its head; the reserved key is not a branch. */
    function ListBranches(): (r: Result<map<string, Option<CommitId>>>)
      reads this
      requires Valid()
      ensures !initialized ==> r == Failure(NotARepository)
      ensures initialized ==> r.Success? && r.value.Keys == branches.Keys - {Reserved}
      ensures r.Success? ==> forall k :: k in r.value ==> r.value[k] == branches[k]
    {
      if !initialized then Failure(NotARepository) else Success(Heads(branches))
    }

    /** The active branch's name; in a consistent repository it is a listed branch. */
    function GetCurrentBranch(): (r: Result<string>)
      reads this
      requires Valid()
      ensures !initialized ==> r == Failure(NotARepository)
      ensures initialized ==> r.Success? && Some(r.value) == branches[Reserved]
      ensures Consistent() && r.Success? ==> r.value in Heads(branches)
    {
      if !initialized then Failure(NotARepository) else Success(CurrentName())
    }

    /**
     * Makes `name` the active branch. Fails for a name that is not a key of the
     * table, then for a tree with staged or modified files. The reserved key
     * passes the first check.
     */
    method SwitchBranch(name: string, tree: WorkingTree) returns (r: Outcome)
      requires Valid()
      modifies this`branches
      ensures Valid()
      ensures !initialized ==> r == Fail(NotARepository)
      ensures initialized && name !in old(branches) ==> r == Fail(BranchNotFound(name))
      ensures initialized && name in old(branches) && !IsClean(StatusOf(staging, tree, digest)) ==>
                r == Fail(DirtyTreeOnSwitch)
      ensures r.Fail? ==> branches == old(branches)
      ensures r.Pass? <==> initialized && name in old(branches) && IsClean(StatusOf(staging, tree, digest))
      ensures r.Pass? ==>
        && branches == old(branches)[Reserved := Some(name)]
        && CurrentName() == name
      ensures old(Consistent()) && name != Reserved ==> Consistent()
    {
      if !initialized {
        return Fail(NotARepository);
      }
      if name !in branches {
        return Fail(BranchNotFound(name));
      }
      var status := GetStatus(tree);
      if status.value.modified != {} || status.value.staged != {} {
        return Fail(DirtyTreeOnSwitch);
      }
      branches := branches[Reserved := Some(name)];
      r := Pass;
    }

    /** The walk from `start` along parent links, newest first. */
    method CommitHistory(start: Option<CommitId>) returns (r: Result<seq<CommitId>>)
      requires Valid()
      ensures r == History(commits, rank, start)
    {
      var history: seq<CommitId> := [];
      var current := start;
      PrependTwice([], [], History(commits, rank, start));
      while current.Some?
        invariant Prepend(history, History(commits, rank, current)) == History(commits, rank, start)
        decreases Depth(commits, rank, current)
      {
        var commit := GetCommit(current);
        if commit.Failure? {
          return Failure(commit.error);
        }
        PrependTwice(history, [current.value], History(commits, rank, commit.value.parent));
        history := history + [current.value];
        current := commit.value.parent;
      }
      assert history + [] == history;
      r := Success(history);
    }

    /**
     * What merging `name` into the active branch reports, as the sequence of
     * checks and lookups the merge performs.
     */
    ghost function MergeOutcome(name: string, tree: WorkingTree): (r: Result<MergeResult>)
      reads this
      requires Valid()
      ensures r.Success? ==> initialized && name in branches && name != CurrentName() && CurrentName() in branches
      ensures r.Success? ==> IsClean(StatusOf(staging, tree, digest))
      ensures r.Failure? ==>
        || r.error == NotARepository || r.error == BranchNotFound(name) || r.error == SelfMerge
        || r.error == DirtyTreeOnMerge || r.error == NoCommonAncestor
        || (r.error.CommitNotFound? && (r.error.id.None? || r.error.id.value !in commits))
        || (initialized && r.error == KeyError(CurrentName()))
    {
      if !initialized then Failure(NotARepository)
      else if name !in branches then Failure(BranchNotFound(name))
      else if name == CurrentName() then Failure(SelfMerge)
      else if !IsClean(StatusOf(staging, tree, digest)) then Failure(DirtyTreeOnMerge)
      else if GetCommit(branches[name]).Failure? then Failure(CommitNotFound(branches[name]))
      else if CurrentName() !in branches then Failure(KeyError(CurrentName()))
      else if GetCommit(branches[CurrentName()]).Failure? then Failure(CommitNotFound(branches[CurrentName()]))
      else
        var sourceHistory := History(commits, rank, branches[name]);
        var targetHistory := History(commits, rank, branches[CurrentName()]);
        if sourceHistory.Failure? then Failure(sourceHistory.error)
        else if targetHistory.Failure? then Failure(targetHistory.error)
        else
          var ancestor := FirstShared(sourceHistory.value, targetHistory.value);
          if ancestor.None? then Failure(NoCommonAncestor)
          else if GetCommit(ancestor).Failure? then Failure(CommitNotFound(ancestor))
          else Success(Classify(GetCommit(branches[name]).value.changes,
                                GetCommit(branches[CurrentName()]).value.changes,
                                GetCommit(ancestor).value.changes))
    }

    /**
     * Classifies the paths of the two heads against their common ancestor.
     * Reads the tables and changes none of them.
     */
    method MergeBranch(name: string, tree: WorkingTree) returns (r: Result<MergeResult>)
      requires Valid()
      ensures r == MergeOutcome(name, tree)
      ensures !initialized ==> r == Failure(NotARepository)
      ensures initialized && name !in branches ==> r == Failure(BranchNotFound(name))
      ensures initialized && name in branches && name == CurrentName() ==> r == Failure(SelfMerge)
      ensures initialized && name in branches && name != CurrentName() && !IsClean(StatusOf(staging, tree, digest)) ==>
                r == Failure(DirtyTreeOnMerge)
      ensures (initialized && name in branches && name != CurrentName() && IsClean(StatusOf(staging, tree, digest))
               && branches[name] == None) ==> r == Failure(CommitNotFound(None))
    {
      if !initialized {
        return Failure(NotARepository);
      }
      if name !in branches {
        return Failure(BranchNotFound(name));
      }
      var currentBranch := branches[Reserved].value;
      if name == currentBranch {
        return Failure(SelfMerge);
      }
      var status := GetStatus(tree);
      if status.value.modified != {} || status.value.staged != {} {
        return Failure(DirtyTreeOnMerge);
      }
      var sourceCommit := GetCommit(branches[name]);
      if sourceCommit.Failure? {
        return Failure(sourceCommit.error);
      }
      if currentBranch !in branches {
        return Failure(KeyError(currentBranch));
      }
      var targetCommit := GetCommit(branches[currentBranch]);
      if targetCommit.Failure? {
        return Failure(targetCommit.error);
      }
      var sourceHistory := CommitHistory(branches[name]);
      if sourceHistory.Failure? {
        return Failure(sourceHistory.error);
      }
      var targetHistory := CommitHistory(branches[currentBranch]);
      if targetHistory.Failure? {
        return Failure(targetHistory.error);
      }
      var commonAncestor := FindCommonAncestor(sourceHistory.value, targetHistory.value);
      if commonAncestor.None? {
        return Failure(NoCommonAncestor);
      }
      var ancestorCommit := GetCommit(commonAncestor);
      if ancestorCommit.Failure? {
        return Failure(ancestorCommit.error);
      }
      var result := ClassifyPaths(sourceCommit.value.changes, targetCommit.value.changes, ancestorCommit.value.changes);
      r := Success(result);
    }

    /**
     * A successful merge classifies every path of the two heads into exactly
     * one list, by the three-way test against a commit that lies on both
     * heads' walks, and no newer commit of the source walk is shared.
     */
    lemma MergeSucceeds(name: string, tree: WorkingTree)
      requires Valid()
      requires MergeOutcome(name, tree).Success?
      ensures initialized && name in branches && name != CurrentName() && CurrentName() in branches
      ensures IsClean(StatusOf(staging, tree, digest))
      ensures var source, target := branches[name], branches[CurrentName()];
        && source.Some? && source.value in commits && target.Some? && target.value in commits
        && var hs, ht := History(commits, rank, source), History(commits, rank, target);
           && hs.Success? && ht.Success?
           && var base := FirstShared(hs.value, ht.value);
              && base.Some? && base.value in hs.value && base.value in ht.value && base.value in commits
              && var s, t, a := commits[source.value].changes, commits[target.value].changes, commits[base.value].changes;
                 var m := MergeOutcome(name, tree).value;
                 && m.conflicts + m.merged == s.Keys + t.Keys
                 && m.conflicts !! m.merged
                 && forall p :: p in m.conflicts <==>
                      p in s.Keys + t.Keys && IsConflict(HashAt(s, p), HashAt(t, p), HashAt(a, p))
    {
      var source, target := branches[name], branches[CurrentName()];
      var hs, ht := History(commits, rank, source), History(commits, rank, target);
      var base := FirstShared(hs.value, ht.value);
      ClassifyPartition(commits[source.value].changes, commits[target.value].changes, commits[base.value].changes);
    }

    /**
     * In a consistent repository a merge whose checks pass and whose two heads
     * exist can only fail for want of a common ancestor.
     */
    lemma MergeFailsOnlyWithoutAncestor(name: string, tree: WorkingTree)
      requires Consistent() && initialized
      requires name in branches && name != Reserved && name != CurrentName()
      requires IsClean(StatusOf(staging, tree, digest))
      requires branches[name].Some? && branches[CurrentName()].Some?
      ensures MergeOutcome(name, tree).Success? || MergeOutcome(name, tree) == Failure(NoCommonAncestor)
    {
      HistoryTotal(commits, rank, branches[name]);
      HistoryTotal(commits, rank, branches[CurrentName()]);
      var hs := History(commits, rank, branches[name]).value;
      var ht := History(commits, rank, branches[CurrentName()]).value;
      var base := FirstShared(hs, ht);
      if base.Some? {
        HistoryIsChain(commits, rank, branches[name]);
      }
    }

    /**
     * Returns the working tree's current bytes at `path`, provided the commit
     * (the active branch's head when none is given) records the path. The
     * bytes are not the ones the commit saw.
     */
    function GetFileContent(path: Path, at: Option<CommitId>, tree: WorkingTree): (r: Result<Bytes>)
      reads this
      requires Valid()
      ensures r.Success? ==> initialized && path in tree.files && tree.files[path] == File(r.value)
      ensures r.Success? && at.None? ==> CurrentName() in branches
      ensures r.Success? ==>
        var id := if at.Some? then at else branches[CurrentName()];
        GetCommit(id).Success? && path in GetCommit(id).value.changes
      ensures initialized && GetCommit(at).Success? && path !in GetCommit(at).value.changes ==>
                r == Failure(FileNotInCommit(path))
    {
      if !initialized then Failure(NotARepository)
      else if at.None? && CurrentName() !in branches then Failure(KeyError(CurrentName()))
      else
        var id := if at.Some? then at else branches[CurrentName()];
        match GetCommit(id)
        case Failure(e) => Failure(e)
        case Success(commit) =>
          if path !in commit.changes then Failure(FileNotInCommit(path))
          else if path !in tree.files then Failure(FileNotFound(path))
          else match tree.files[path]
            case Directory => Failure(IsADirectory(path))
            case File(bytes) => Success(bytes)
    }
  }
}
