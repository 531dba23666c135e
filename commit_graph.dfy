/**
 * The commit graph: parent links between stored commits, the walk from a
 * commit back to the root, and the choice of a common ancestor for a merge.
 *
 * The walk in the repository has no cycle guard; it terminates because every
 * stored commit gets a rank when it is written, and a stored parent always
 * ranks below its child (a parent exists before its child is created).
 */
module CommitGraph {
  import opened RepoTypes

  /** `rank` orders the stored commits so that a stored parent ranks below its child. */
  ghost predicate Ranked(commits: map<CommitId, Commit>, rank: map<CommitId, nat>)
  {
    && commits.Keys <= rank.Keys
    && forall id :: id in commits && commits[id].parent.Some? && commits[id].parent.value in commits
         ==> rank[commits[id].parent.value] < rank[id]
  }

  /** Every parent link resolves to a stored commit. */
  ghost predicate Closed(commits: map<CommitId, Commit>)
  {
    forall id :: id in commits && commits[id].parent.Some? ==> commits[id].parent.value in commits
  }

  ghost function Depth(commits: map<CommitId, Commit>, rank: map<CommitId, nat>, start: Option<CommitId>): nat
    requires commits.Keys <= rank.Keys
  {
    if start.Some? && start.value in commits then rank[start.value] + 1 else 0
  }

  /** `prefix` in front of a successful walk; a failed walk stays failed. */
  function Prepend(prefix: seq<CommitId>, r: Result<seq<CommitId>>): Result<seq<CommitId>>
  {
    match r
    case Success(rest) => Success(prefix + rest)
    case Failure(e) => Failure(e)
  }

  lemma PrependTwice(a: seq<CommitId>, b: seq<CommitId>, r: Result<seq<CommitId>>)
    ensures Prepend(a, Prepend(b, r)) == Prepend(a + b, r)
    ensures Prepend([], r) == r
  {
    if r.Success? {
      assert a + (b + r.value) == (a + b) + r.value;
      assert [] + r.value == r.value;
    }
  }

  /**
   * The ids met when following parent links from `start`, newest first; the
   * walk stops at a missing parent and fails on an id that is not stored.
   */
  ghost function History(commits: map<CommitId, Commit>, rank: map<CommitId, nat>, start: Option<CommitId>)
    : (r: Result<seq<CommitId>>)
    requires Ranked(commits, rank)
    ensures r.Success? ==> (start.None? <==> r.value == [])
    ensures r.Success? && start.Some? ==> r.value[0] == start.value
    ensures r.Success? ==> |r.value| <= Depth(commits, rank, start)
    ensures r.Failure? ==> r.error.CommitNotFound? && r.error.id.Some? && r.error.id.value !in commits
    decreases Depth(commits, rank, start)
  {
    match start
    case None => Success([])
    case Some(id) =>
      if id !in commits then Failure(CommitNotFound(start))
      else Prepend([id], History(commits, rank, commits[id].parent))
  }

  /** `h` is a chain of stored commits, each the parent of the one before, ending at the root. */
  ghost predicate IsChain(commits: map<CommitId, Commit>, h: seq<CommitId>)
  {
    && (forall i :: 0 <= i < |h| ==> h[i] in commits)
    && (forall i :: 0 <= i < |h| - 1 ==> commits[h[i]].parent == Some(h[i + 1]))
    && (|h| > 0 ==> commits[h[|h| - 1]].parent == None)
  }

  /** A successful walk starts at `start`, follows parent links and ends at a commit without parent. */
  lemma {:induction false} HistoryIsChain(commits: map<CommitId, Commit>, rank: map<CommitId, nat>, start: Option<CommitId>)
    requires Ranked(commits, rank)
    requires History(commits, rank, start).Success?
    ensures var h := History(commits, rank, start).value;
      && IsChain(commits, h)
      && (start.None? <==> h == [])
      && (start.Some? ==> h[0] == start.value)
    decreases Depth(commits, rank, start)
  {
    if start.Some? {
      var id := start.value;
      var parent := commits[id].parent;
      HistoryIsChain(commits, rank, parent);
      var rest := History(commits, rank, parent).value;
      assert History(commits, rank, start).value == [id] + rest;
    }
  }

  /** Ranks fall strictly along a walk, so no commit appears twice in it. */
  lemma {:induction false} HistoryRanksFall(commits: map<CommitId, Commit>, rank: map<CommitId, nat>, start: Option<CommitId>)
    requires Ranked(commits, rank)
    requires History(commits, rank, start).Success?
    ensures var h := History(commits, rank, start).value;
      && (forall i :: 0 <= i < |h| ==> h[i] in commits && rank[h[i]] < Depth(commits, rank, start))
      && (forall i, j :: 0 <= i < j < |h| ==> rank[h[j]] < rank[h[i]])
    decreases Depth(commits, rank, start)
  {
    if start.Some? {
      var id := start.value;
      var parent := commits[id].parent;
      HistoryRanksFall(commits, rank, parent);
      var rest := History(commits, rank, parent).value;
      var h := [id] + rest;
      assert History(commits, rank, start).value == h;
      assert rest != [] ==> parent.Some? && rest[0] == parent.value by {
        HistoryIsChain(commits, rank, parent);
      }
      forall i, j | 0 <= i < j < |h| ensures rank[h[j]] < rank[h[i]] {
        if i == 0 {
          assert h[j] == rest[j - 1];
        } else {
          assert h[i] == rest[i - 1] && h[j] == rest[j - 1];
        }
      }
    }
  }

  lemma HistoryDistinct(commits: map<CommitId, Commit>, rank: map<CommitId, nat>, start: Option<CommitId>)
    requires Ranked(commits, rank)
    requires History(commits, rank, start).Success?
    ensures var h := History(commits, rank, start).value;
      forall i, j :: 0 <= i < j < |h| ==> h[i] != h[j]
  {
    HistoryRanksFall(commits, rank, start);
  }

  /** When every parent link resolves, the walk from a stored commit (or from none) succeeds. */
  lemma {:induction false} HistoryTotal(commits: map<CommitId, Commit>, rank: map<CommitId, nat>, start: Option<CommitId>)
    requires Ranked(commits, rank) && Closed(commits)
    requires start.Some? ==> start.value in commits
    ensures History(commits, rank, start).Success?
    decreases Depth(commits, rank, start)
  {
    if start.Some? {
      HistoryTotal(commits, rank, commits[start.value].parent);
    }
  }

  /** The walk from any commit of a walk is the rest of that walk. */
  lemma {:induction false} HistorySuffix(commits: map<CommitId, Commit>, rank: map<CommitId, nat>, start: Option<CommitId>, i: nat)
    requires Ranked(commits, rank)
    requires History(commits, rank, start).Success?
    requires i < |History(commits, rank, start).value|
    ensures var h := History(commits, rank, start).value;
      History(commits, rank, Some(h[i])) == Success(h[i..])
    decreases Depth(commits, rank, start)
  {
    HistoryIsChain(commits, rank, start);
    var h := History(commits, rank, start).value;
    var id := start.value;
    var parent := commits[id].parent;
    var rest := History(commits, rank, parent).value;
    assert h == [id] + rest;
    if i == 0 {
      assert h[0..] == h;
    } else {
      HistorySuffix(commits, rank, parent, i - 1);
      assert h[i] == rest[i - 1] && h[i..] == rest[i - 1..];
    }
  }

  /** The first id of `source` that also occurs in `target` (the merge base choice). */
  function FirstShared(source: seq<CommitId>, target: seq<CommitId>): (r: Option<CommitId>)
    ensures r.Some? ==> r.value in source && r.value in target
    ensures r.Some? ==> exists i :: 0 <= i < |source| && source[i] == r.value
                                  && forall j :: 0 <= j < i ==> source[j] !in target
    ensures r.None? <==> forall x :: x in source ==> x !in target
  {
    if source == [] then None
    else if source[0] in target then Some(source[0])
    else
      var r := FirstShared(source[1..], target);
      assert forall x :: x in source ==> x == source[0] || x in source[1..];
      if r.Some? then
        var i :| 0 <= i < |source[1..]| && source[1..][i] == r.value
                 && forall j :: 0 <= j < i ==> source[1..][j] !in target;
        assert source[i + 1] == r.value && forall j :: 0 <= j < i + 1 ==> source[j] !in target;
        r
      else r
  }

  /** The search loop of the merge: scans `source` newest first for an id of `target`. */
  method FindCommonAncestor(source: seq<CommitId>, target: seq<CommitId>) returns (ancestor: Option<CommitId>)
    ensures ancestor == FirstShared(source, target)
  {
    ancestor := None;
    var i := 0;
    while i < |source|
      invariant 0 <= i <= |source|
      invariant FirstShared(source[i..], target) == FirstShared(source, target)
    {
      assert source[i..][1..] == source[i + 1..];
      if source[i] in target {
        ancestor := Some(source[i]);
        return;
      }
      i := i + 1;
    }
  }

  /**
   * The chosen merge base is an ancestor of both heads: its own walk is the
   * tail of each head's walk, and no newer commit of the source walk is shared.
   */
  lemma MergeBaseIsCommonAncestor(commits: map<CommitId, Commit>, rank: map<CommitId, nat>,
                                  source: Option<CommitId>, target: Option<CommitId>, base: CommitId)
    requires Ranked(commits, rank)
    requires History(commits, rank, source).Success? && History(commits, rank, target).Success?
    requires FirstShared(History(commits, rank, source).value, History(commits, rank, target).value) == Some(base)
    ensures base in commits
    ensures var hs, ht := History(commits, rank, source).value, History(commits, rank, target).value;
      exists i, j :: 0 <= i < |hs| && 0 <= j < |ht| && hs[i] == base && ht[j] == base
        && History(commits, rank, Some(base)) == Success(hs[i..])
        && History(commits, rank, Some(base)) == Success(ht[j..])
        && forall k :: 0 <= k < i ==> hs[k] !in ht
  {
    var hs, ht := History(commits, rank, source).value, History(commits, rank, target).value;
    var i :| 0 <= i < |hs| && hs[i] == base && forall k :: 0 <= k < i ==> hs[k] !in ht;
    var j :| 0 <= j < |ht| && ht[j] == base;
    HistorySuffix(commits, rank, source, i);
    HistorySuffix(commits, rank, target, j);
    HistoryIsChain(commits, rank, source);
  }
}
