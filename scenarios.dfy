/**
 * Clients of the repository that replay whole sessions against the
 * specifications of its operations: a session that forks `dev`, changes
 * `f.txt` differently on both branches and merges; the clean-tree guards; and
 * the two corners of the shared branch-table namespace.
 */
module Scenarios {
  import opened RepoTypes
  import opened CommitGraph
  import opened MergeEngine
  import opened WorkingStatus
  import opened Svcs

  /** A stand-in for SHA-256 on the three file versions the sessions use. */
  function FileDigest(b: Bytes): Digest
  {
    if b == [1] then "H1" else if b == [2] then "H2" else "H3"
  }

  /** A stand-in for the commit id: the sessions give every commit its own message. */
  function MessageId(c: Commit): CommitId
  {
    c.message
  }

  /** A working tree holding only `f.txt` with the given bytes, nothing ignored. */
  function OneFile(content: Bytes): WorkingTree
  {
    WorkingTree(map["f.txt" := File(content)], (p: Path) => false)
  }

  /** `f.txt` is a regular file that no rule ignores. */
  lemma FileIsVisible(content: Bytes)
    ensures Visible(OneFile(content), "f.txt")
  {
    assert RepoDir[0] != "f.txt"[0];
  }

  /** Stages `f.txt` with `content` and commits it under `message` on the active branch. */
  method StageAndCommit(repo: Repository, content: Bytes, message: string, now: string)
    requires repo.Valid() && repo.initialized && repo.CurrentName() in repo.branches
    requires repo.digest == FileDigest && repo.commitId == MessageId
    requires repo.Unused(message)
    modifies repo
    ensures repo.Valid() && repo.initialized && repo.staging == map[]
    ensures repo.branches == old(repo.branches)[old(repo.CurrentName()) := Some(message)]
    ensures repo.commits == old(repo.commits)[message := Commit(message, "unknown", now,
              old(repo.branches[repo.CurrentName()]), old(repo.staging)["f.txt" := StageEntry(FileDigest(content), now)])]
  {
    FileIsVisible(content);
    var _ := repo.StageFile("f.txt", OneFile(content), now);
    var _ := repo.Commit(message, None, None, now);
  }

  /** A new repository with `f.txt` committed once on `main`. */
  method FirstCommit() returns (repo: Repository)
    ensures fresh(repo) && repo.Valid() && repo.initialized && repo.staging == map[]
    ensures repo.digest == FileDigest && repo.commitId == MessageId
    ensures repo.branches == map["main" := Some("first"), "current" := Some("main")]
    ensures repo.commits == map["first" := Commit("first", "unknown", "t1", None, map["f.txt" := StageEntry("H1", "t1")])]
  {
    repo := new Repository(FileDigest, MessageId);
    var _ := repo.Init();
    StageAndCommit(repo, [1], "first", "t1");
  }

  /** From the first commit, `dev` is forked and made the active branch. */
  method OnDev() returns (repo: Repository)
    ensures fresh(repo) && repo.Valid() && repo.initialized && repo.staging == map[]
    ensures repo.digest == FileDigest && repo.commitId == MessageId
    ensures repo.branches == map["main" := Some("first"), "current" := Some("dev"), "dev" := Some("first")]
    ensures repo.commits == map["first" := Commit("first", "unknown", "t1", None, map["f.txt" := StageEntry("H1", "t1")])]
  {
    repo := FirstCommit();
    var _ := repo.CreateBranch("dev");
    CleanIffNoStagedFileVisible(repo.staging, OneFile([1]), FileDigest);
    var _ := repo.SwitchBranch("dev", OneFile([1]));
  }

  /** `dev` commits its own version of `f.txt`. */
  method ForkDev() returns (repo: Repository)
    ensures fresh(repo) && repo.Valid() && repo.initialized && repo.staging == map[]
    ensures repo.digest == FileDigest && repo.commitId == MessageId
    ensures repo.branches == map["main" := Some("first"), "current" := Some("dev"), "dev" := Some("second")]
    ensures repo.commits == map[
              "first" := Commit("first", "unknown", "t1", None, map["f.txt" := StageEntry("H1", "t1")]),
              "second" := Commit("second", "unknown", "t2", Some("first"), map["f.txt" := StageEntry("H2", "t2")])]
  {
    repo := OnDev();
    StageAndCommit(repo, [2], "second", "t2");
  }

  /** `dev` has moved on; the session switches back to `main`. */
  method BackToMain() returns (repo: Repository)
    ensures fresh(repo) && repo.Valid() && repo.initialized && repo.staging == map[]
    ensures repo.digest == FileDigest && repo.commitId == MessageId
    ensures repo.branches == map["main" := Some("first"), "current" := Some("main"), "dev" := Some("second")]
    ensures repo.commits == map[
              "first" := Commit("first", "unknown", "t1", None, map["f.txt" := StageEntry("H1", "t1")]),
              "second" := Commit("second", "unknown", "t2", Some("first"), map["f.txt" := StageEntry("H2", "t2")])]
  {
    repo := ForkDev();
    CleanIffNoStagedFileVisible(repo.staging, OneFile([2]), FileDigest);
    var _ := repo.SwitchBranch("main", OneFile([2]));
  }

  /** Back on `main`, a third commit changes `f.txt` once more. */
  method Diverge() returns (repo: Repository)
    ensures fresh(repo) && repo.Valid() && repo.initialized && repo.staging == map[]
    ensures repo.digest == FileDigest && repo.commitId == MessageId
    ensures repo.branches == map["main" := Some("third"), "current" := Some("main"), "dev" := Some("second")]
    ensures repo.commits == map[
              "first" := Commit("first", "unknown", "t1", None, map["f.txt" := StageEntry("H1", "t1")]),
              "second" := Commit("second", "unknown", "t2", Some("first"), map["f.txt" := StageEntry("H2", "t2")]),
              "third" := Commit("third", "unknown", "t3", Some("first"), map["f.txt" := StageEntry("H3", "t3")])]
  {
    repo := BackToMain();
    StageAndCommit(repo, [3], "third", "t3");
  }

  /**
   * Fork `dev` from the first commit, change `f.txt` differently on both
   * branches, and merge `dev` into `main`: the first commit is the common
   * ancestor and the path conflicts.
   */
  method ForkAndConflict() returns (r: Result<MergeResult>)
    ensures r == Success(MergeResult({"f.txt"}, {}))
  {
    var repo := Diverge();
    CleanIffNoStagedFileVisible(repo.staging, OneFile([3]), FileDigest);
    var commits, rank := repo.commits, repo.rank;
    assert History(commits, rank, None) == Success([]);
    assert ["first"] + [] == ["first"];
    assert History(commits, rank, Some("first")) == Success(["first"]);
    assert ["second"] + ["first"] == ["second", "first"];
    assert History(commits, rank, Some("second")) == Success(["second", "first"]);
    assert ["third"] + ["first"] == ["third", "first"];
    assert History(commits, rank, Some("third")) == Success(["third", "first"]);
    assert FirstShared(["second", "first"], ["third", "first"]) == Some("first");
    ghost var s, t, a := commits["second"].changes, commits["third"].changes, commits["first"].changes;
    assert s.Keys + t.Keys == {"f.txt"};
    assert IsConflict(HashAt(s, "f.txt"), HashAt(t, "f.txt"), HashAt(a, "f.txt"));
    ClassifyPartition(s, t, a);
    ghost var m := Classify(s, t, a);
    assert m.conflicts == {"f.txt"} && m.merged == {};
    assert repo.MergeOutcome("dev", OneFile([3])) == Success(m);
    r := repo.MergeBranch("dev", OneFile([3]));
  }

  /** Committing in a new repository, with nothing staged, fails. */
  method EmptyCommitRefused() returns (r: Result<CommitId>)
    ensures r == Failure(NothingStaged)
  {
    var repo := new Repository(FileDigest, MessageId);
    var _ := repo.Init();
    r := repo.Commit("empty", None, None, "t1");
  }

  /** Switching branches fails while a staged file is still in the tree. */
  method DirtySwitchRefused() returns (r: Outcome)
    ensures r == Fail(DirtyTreeOnSwitch)
  {
    var repo := new Repository(FileDigest, MessageId);
    var _ := repo.Init();
    var _ := repo.CreateBranch("dev");
    FileIsVisible([1]);
    var _ := repo.StageFile("f.txt", OneFile([1]), "t1");
    assert "f.txt" in StatusOf(repo.staging, OneFile([1]), FileDigest).staged;
    r := repo.SwitchBranch("dev", OneFile([1]));
  }

  /**
   * A branch without commits cannot be merged: its head is none, and looking
   * that head up finds no commit.
   */
  method MergeBranchWithoutCommits() returns (r: Result<MergeResult>)
    ensures r == Failure(CommitNotFound(None))
  {
    var repo := new Repository(FileDigest, MessageId);
    var _ := repo.Init();
    var _ := repo.CreateBranch("dev");
    var empty := WorkingTree(map[], (p: Path) => false);
    CleanIffNoStagedFileVisible(repo.staging, empty, FileDigest);
    r := repo.MergeBranch("dev", empty);
  }

  /**
   * The reserved key passes the existence check of a switch. The next commit
   * then records the name `current` as its parent, which is no stored commit,
   * and overwrites the reserved key with its own id, so the active branch is
   * named by a commit id that is no branch and creating a branch fails.
   */
  method SwitchToReservedKey() returns (switched: Outcome, parent: Option<CommitId>, dangling: bool,
                                        active: Result<string>, created: Outcome)
    ensures switched == Pass
    ensures parent == Some("current") && dangling
    ensures active == Success("second")
    ensures created == Fail(KeyError("second"))
  {
    var repo := FirstCommit();
    CleanIffNoStagedFileVisible(repo.staging, OneFile([1]), FileDigest);
    switched := repo.SwitchBranch("current", OneFile([1]));
    StageAndCommit(repo, [2], "second", "t2");
    parent := repo.commits["second"].parent;
    dangling := parent.value !in repo.commits;
    active := repo.GetCurrentBranch();
    created := repo.CreateBranch("dev");
  }
}
