# svcs repository — a Dafny model

This project models the `Repository` class of `svcs`, a small source-control system. A repository keeps three tables under its `.repo` directory:

- the **staging table**, from a relative path to the digest of the file's bytes and the time it was staged;
- the **commit store**, from a commit id (the SHA-256 of the commit's JSON form) to its message, author, timestamp, parent id and the staging snapshot it recorded;
- the **branch table**, from a branch name to its head commit id or to none. In the same dictionary, the reserved key `current` holds the name of the active branch.

The model is a Dafny class `Svcs.Repository`. Each table is one of its fields, and the operations are methods that rewrite those fields: `init`, `stage_file`, `commit`, `create_branch` and `switch_branch`. The read-only operations are functions or methods: `get_commit`, `list_branches`, `get_current_branch`, `get_status`, `_get_commit_history`, `merge_branch` and the commit check of `get_file_content`. Every failure the source raises is a constructor of `RepoTypes.Error`. The errors are checked in the source's order. A lookup of a missing key in the branch table becomes `KeyError`.

Layout:

- `types.dfy` (`RepoTypes`): the table records, the working tree and the errors.
- `working_status.dfy` (`WorkingStatus`): the ignore rule, the checks before staging, and the status report, both as a specification and as the loop over the tree.
- `commit_graph.dfy` (`CommitGraph`): the walk along parent links and the choice of the merge base.
- `merge_engine.dfy` (`MergeEngine`): the three-way test and the classification loop of a merge.
- `repository.dfy` (`Svcs`): the `Repository` class.
- `scenarios.dfy` (`Scenarios`): whole sessions replayed against the operations' contracts.

Two invariants are stated:

- `Valid()` holds after every operation. Before `init` the tables are empty. After it, the reserved key holds some name. A ghost creation rank shows that stored parents are older than their children, so the walk along parent links, which has no cycle guard, always ends.
- `Consistent()` is the integrity the repository relies on:
  - the active branch is a real branch;
  - every head and every parent link resolves to a stored commit.

  Every operation keeps `Consistent()` except a switch to the reserved key itself.

Quirks of the code are modelled as written:

- Branch names and the reserved key share one namespace. `create_branch("current")` is refused. `switch_branch("current")` is accepted, after which:
  - the next commit records the name `current` as its parent id;
  - that commit overwrites the reserved key with the new commit's id;
  - from then on, the operations that read the active branch's head fail with `KeyError`: `commit`, `create_branch`, `merge_branch` once its first checks pass, and `get_file_content` without a commit id;
  - staging, status, listing and switching still work, and switching back to a real branch repairs the table.

  `Scenarios.SwitchToReservedKey` plays this through.
- Merging a branch without commits fails in the commit lookup, with "commit not found".
- The repository-directory test in the ignore rule is a string-prefix test. So `.repository.txt` is ignored too.
- A staged file that was deleted, or that an ignore pattern now hides, does not make the tree dirty.
- `get_file_content` checks that the commit records the path, but it returns the working tree's current bytes.

## Model

| member | source | states |
|---|---|---|
| Svcs.Repository.constructor | svcs/repository.py:19-26 | a repository object over a directory without `.repo`: not initialized, no tables |
| Svcs.Repository.Init | svcs/repository.py:28-44 | fails with "already exists" and changes nothing on an existing repository; otherwise staging and the commit store are empty and the branch table is exactly {main: none, current: "main"}; the invariants hold |
| Svcs.Repository.GetStatus | svcs/repository.py:74-103 | fails outside a repository; otherwise reports exactly `StatusOf` of the staging table and the working tree |
| WorkingStatus.Scan | svcs/repository.py:86-101 | the loop over the tree's paths skips ignored paths and non-files and sorts every visible file into staged, modified or untracked as `StatusOf` defines |
| WorkingStatus.StatusPartition | svcs/repository.py:93-101 | each visible file lands in exactly one of the three lists, and nothing else is listed |
| WorkingStatus.CleanIffNoStagedFileVisible | svcs/repository.py:93-99 | the tree is clean (nothing staged or modified reported) exactly when no path of the staging table is a visible file |
| WorkingStatus.IsIgnored | svcs/repository.py:105-118 | a path is ignored when its text starts with `.repo` (a string prefix, so `.repository.txt` too) or when an ignore pattern matches it, and only then |
| WorkingStatus.StageCheck | svcs/repository.py:130-137 | the staging checks in their order: a missing path, then a directory, then an ignored path fail; staging is allowed exactly for a visible file |
| Svcs.Repository.StageFile | svcs/repository.py:120-147 | fails outside a repository or as `StageCheck` says; on success the path's entry is the digest of its current bytes with the given time and every other entry is unchanged; on failure staging is unchanged |
| Svcs.AuthorName | svcs/repository.py:174 | the recorded author is the given author unless missing or empty, else USER, else "unknown" |
| Svcs.Repository.Commit | svcs/repository.py:149-194 | fails outside a repository, then with nothing staged, then with KeyError when the active name is no key; succeeds exactly otherwise; the new commit's parent is the active branch's old head, its changes are the staging snapshot, its id is the digest of the commit and `GetCommit` returns it; only the active branch moves, to the new id; staging is empty; failures change nothing; `Consistent` is kept |
| Svcs.Repository.GetCommit | svcs/repository.py:196-209 | finds a commit exactly when the id is stored, and then returns that commit; fails with "commit not found" for anything else, a missing head included |
| Svcs.Repository.CreateBranch | svcs/repository.py:211-227 | fails for any name already a key (the reserved key included), then with KeyError when the active name is no key; otherwise adds the name at the active branch's head and leaves the rest of the table, and the active branch, as they were |
| Svcs.Heads | svcs/repository.py:239 | the branch table without the reserved key, heads copied |
| Svcs.Repository.ListBranches | svcs/repository.py:229-239 | fails outside a repository; otherwise every key but the reserved one with its head |
| Svcs.Repository.SwitchBranch | svcs/repository.py:241-260 | fails for a name that is no key, then for a dirty tree; succeeds exactly otherwise and then changes only the reserved key; keeps `Consistent` for every name but the reserved key |
| Svcs.Repository.GetCurrentBranch | svcs/repository.py:262-272 | the value of the reserved key; in a consistent repository it is a listed branch |
| Svcs.Repository.CommitHistory | svcs/repository.py:347-364 | the loop returns exactly `History`: the ids met along parent links from the start, newest first, or "commit not found" at an id that is not stored |
| CommitGraph.History | svcs/repository.py:356-364 | the walk from none is empty; a successful walk from an id starts with that id and is no longer than the start's creation rank allows; a failed walk names an id that is not stored |
| CommitGraph.HistoryIsChain | svcs/repository.py:356-364 | a successful walk starts at its start id, each next id is the parent of the one before, and it ends at a commit without parent |
| CommitGraph.HistoryRanksFall | svcs/repository.py:359-362 | along a walk the creation ranks fall strictly, so the loop without cycle guard ends |
| CommitGraph.HistoryDistinct | svcs/repository.py:356-364 | no id occurs twice in a walk |
| CommitGraph.HistoryTotal | svcs/repository.py:359-362 | when every parent link resolves, the walk from a stored commit or from none succeeds |
| CommitGraph.HistorySuffix | svcs/repository.py:356-364 | the walk from any id of a walk is the rest of that walk |
| CommitGraph.PrependTwice | svcs/repository.py:360 | proof helper for the loop invariant of `CommitHistory`: prepending two blocks of ids in turn is prepending their concatenation, and a failed walk stays failed |
| CommitGraph.FirstShared | svcs/repository.py:308-313 | the merge base is the first id of the source walk that occurs in the target walk; it lies in both; it is none exactly when the walks share nothing |
| CommitGraph.FindCommonAncestor | svcs/repository.py:308-313 | the search loop returns exactly `FirstShared` |
| CommitGraph.MergeBaseIsCommonAncestor | svcs/repository.py:306-316 | the chosen base is stored, and its own walk is the tail of both heads' walks, with no newer shared id on the source walk |
| MergeEngine.HashAt | svcs/repository.py:333-335 | the digest recorded for a path, none exactly when the commit does not record the path |
| MergeEngine.IsConflict | svcs/repository.py:338-340 | the three-way test; identical digests on both sides never conflict, so a path neither head records never does |
| MergeEngine.ClassifyPaths | svcs/repository.py:330-343 | the loop over the union of both heads' paths returns exactly `Classify` |
| MergeEngine.ClassifyPartition | svcs/repository.py:330-343 | every path of either head lands in exactly one list, and among the conflicts exactly when the three-way test holds |
| MergeEngine.ConflictCases | svcs/repository.py:338-340 | equal digests on both sides never conflict, nor does a side that kept the ancestor's digest; three pairwise different digests conflict |
| MergeEngine.ClassifySymmetric | svcs/repository.py:330-343 | swapping source and target does not change the classification |
| MergeEngine.FastForwardHasNoConflicts | svcs/repository.py:330-343 | when the ancestor is one of the heads, nothing conflicts |
| Svcs.Repository.MergeBranch | svcs/repository.py:274-345 | returns exactly `MergeOutcome`, the checks in their order (no repository, unknown branch, self-merge, dirty tree, source head lookup, active name, target head lookup, walks, no common ancestor, ancestor lookup); a branch without commits fails with "commit not found"; no table changes |
| Svcs.Repository.MergeOutcome | svcs/repository.py:285-345 | the merge's checks and lookups in order; a success passed the repository, branch, self-merge and clean-tree checks with a resolvable active name; a failure is one of the merge's own errors, a commit lookup of a head or id that is not stored, or KeyError on the active name |
| Svcs.Repository.MergeSucceeds | svcs/repository.py:288-345 | a successful merge passed every check, its base lies on both heads' walks, and every path of the two heads is classified into exactly one list by the three-way test against the base |
| Svcs.Repository.MergeFailsOnlyWithoutAncestor | svcs/repository.py:302-316 | in a consistent repository, once the checks pass and both heads exist, a merge can only fail with "no common ancestor" |
| Svcs.Repository.GetFileContent | svcs/repository.py:438-464 | succeeds only when the commit (the active head by default) exists and records the path, and then returns the working tree's current bytes at that path; a path the commit does not record fails |
| Scenarios.ForkAndConflict | svcs/repository.py:288-345 | forking `dev`, changing `f.txt` differently on both branches and merging reports `f.txt` as the one conflict |
| Scenarios.EmptyCommitRefused | svcs/repository.py:162-164 | committing in a new repository, with nothing staged, fails with "nothing staged" |
| Scenarios.DirtySwitchRefused | svcs/repository.py:254-257 | switching branches while a staged file is still in the tree fails with the dirty-tree error |
| Scenarios.MergeBranchWithoutCommits | svcs/repository.py:302 | merging a branch without commits fails with "commit not found" |
| Scenarios.SwitchToReservedKey | svcs/repository.py:251-259 | switching to `current` passes; the next commit records the name `current` as its parent, which is no stored commit; the active name becomes that commit's id; creating a branch then fails with KeyError |

## Left out

- The directory walk of `get_status` and the pattern matching of the ignore file are not modelled step by step. The working tree is a map from relative path to file bytes or directory. The ignore patterns are a predicate on paths carried by the tree.
- Path resolution (`resolve`, `relative_to`) is not modelled: paths are the relative strings the tables store.
- The ignore file that `init` writes is not modelled: the ignore rules are a parameter of the working tree.
- JSON files and SHA-256 are not modelled. The tables are fields of the object. File and commit digests are uninterpreted functions given to the constructor.
- `datetime.now()` and the USER variable are parameters of `stage_file` and `commit`.
- Svcs.Repository.Commit: requires that the new commit's id is unused: not stored, no stored commit's parent and no branch-table value. This assumes that SHA-256 does not collide and that the clock never repeats a timestamp: the source also accepts re-committing a snapshot identical to a stored commit (same message, author, parent, staging and timestamps) and rewrites the same commit file, which the model does not cover.
- Svcs.Repository.CommitHistory: the loop and the merge test ids for truthiness, so an empty id would end a walk. Digests are 64 hex digits and never empty, so the model tests only for none.
- Svcs.Repository.GetCommit: the lookup of a missing head builds the file name `None.json`. The model reports `CommitNotFound(None)` without naming a file. An id that is not a plain file name is not modelled.
- The lists of `get_status` and `merge_branch` are sets: their order follows directory and set iteration, which the model does not fix.
- Svcs.Repository.GetFileContent: reading a directory fails with `IsADirectory`. Other I/O errors of the byte read are not modelled.
- `clone` and `_copy_repository_data` are not modelled. They only create directories and copy files.
- `is_initialized` is the `initialized` field.
- `__main__.py` (the command line) and `setup.py` are not part of this model.
- Concurrent access to the repository directory is not modelled.
