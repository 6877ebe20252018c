/**
 * The commit graph as the merge command sees it (Main.findSplitPoint).
 *
 * Commits are stored by id. A ghost `depth` ranks them so that every first
 * parent is strictly shallower than its child; this is what makes walks up
 * the first-parent chain terminate. The root commit is the only commit without
 * a parent, so every first-parent chain ends there.
 */
module Graph {
  import opened Objects
  import opened Commits

  /**
   * Every commit sits under its own id; its parents are stored, and its first
   * parent has a strictly smaller depth.
   */
  ghost predicate Ranked(commits: map<Id, Commit>, depth: map<Id, nat>)
  {
    && (forall id :: id in commits ==> id in depth)
    && forall id {:trigger commits[id]} :: id in commits ==>
      && commits[id].sha == id
      && (commits[id].parent.Some? ==>
            && commits[id].parent.value in commits
            && depth[commits[id].parent.value] < depth[id])
      && (commits[id].secondParent.Some? ==> commits[id].secondParent.value in commits)
  }

  /** `root` is stored and is the only commit without a parent. */
  ghost predicate RootedAt(commits: map<Id, Commit>, root: Id)
  {
    && root in commits
    && forall id {:trigger commits[id]} :: id in commits ==> (commits[id].parent.None? <==> id == root)
  }

  /** Storing a new commit whose parents are stored keeps the store ranked and rooted at the same root. */
  lemma AddChild(commits: map<Id, Commit>, depth: map<Id, nat>, root: Id, c: Commit)
    requires Ranked(commits, depth) && RootedAt(commits, root)
    requires c.sha !in commits && c.parent.Some? && c.parent.value in commits
    requires c.secondParent.Some? ==> c.secondParent.value in commits
    ensures Ranked(commits[c.sha := c], depth[c.sha := depth[c.parent.value] + 1])
    ensures RootedAt(commits[c.sha := c], root)
  {
  }

  /**
   * The first-parent chain of `id`: the commit itself, its parent, its parent's
   * parent, ... up to a commit without a parent. Second parents are not followed.
   */
  ghost function Chain(commits: map<Id, Commit>, depth: map<Id, nat>, id: Id): (r: seq<Id>)
    requires Ranked(commits, depth) && id in commits
    ensures |r| >= 1 && r[0] == id
    ensures r[|r| - 1] in commits && commits[r[|r| - 1]].parent.None?
    decreases depth[id]
  {
    match commits[id].parent
    case None => [id]
    case Some(p) => [id] + Chain(commits, depth, p)
  }

  /** Every commit on a chain is stored and no deeper than the chain's start. */
  lemma {:induction false} ChainStored(commits: map<Id, Commit>, depth: map<Id, nat>, id: Id, i: nat)
    requires Ranked(commits, depth) && id in commits
    requires i < |Chain(commits, depth, id)|
    ensures Chain(commits, depth, id)[i] in commits
    ensures depth[Chain(commits, depth, id)[i]] <= depth[id]
    decreases depth[id]
  {
    if i > 0 {
      var p := commits[id].parent.value;
      ChainStored(commits, depth, p, i - 1);
    }
  }

  /** Each element of a chain is the first parent of the one before it. */
  lemma {:induction false} ChainLinks(commits: map<Id, Commit>, depth: map<Id, nat>, id: Id, i: nat)
    requires Ranked(commits, depth) && id in commits
    requires i + 1 < |Chain(commits, depth, id)|
    ensures Chain(commits, depth, id)[i] in commits
    ensures commits[Chain(commits, depth, id)[i]].parent == Some(Chain(commits, depth, id)[i + 1])
    decreases depth[id]
  {
    var p := commits[id].parent.value;
    if i > 0 {
      ChainLinks(commits, depth, p, i - 1);
    }
  }

  /** Depth strictly decreases along a chain, so a chain never repeats a commit. */
  lemma {:induction false} ChainDescends(commits: map<Id, Commit>, depth: map<Id, nat>, id: Id, i: nat, j: nat)
    requires Ranked(commits, depth) && id in commits
    requires i < j < |Chain(commits, depth, id)|
    ensures Chain(commits, depth, id)[i] in commits && Chain(commits, depth, id)[j] in commits
    ensures depth[Chain(commits, depth, id)[j]] < depth[Chain(commits, depth, id)[i]]
    decreases depth[id]
  {
    var p := commits[id].parent.value;
    if i > 0 {
      ChainDescends(commits, depth, p, i - 1, j - 1);
    } else {
      ChainStored(commits, depth, p, j - 1);
    }
  }

  /** Every first-parent chain ends at the root commit. */
  lemma {:induction false} ChainEndsAtRoot(commits: map<Id, Commit>, depth: map<Id, nat>, root: Id, id: Id)
    requires Ranked(commits, depth) && RootedAt(commits, root) && id in commits
    ensures root in Chain(commits, depth, id)
    ensures Chain(commits, depth, id)[|Chain(commits, depth, id)| - 1] == root
  {
  }

  /** The set of commits on the first-parent chain of `id`. */
  ghost function ChainSet(commits: map<Id, Commit>, depth: map<Id, nat>, id: Id): set<Id>
    requires Ranked(commits, depth) && id in commits
  {
    set x | x in Chain(commits, depth, id)
  }

  /** The first element of `chain` that belongs to `s`. */
  ghost function FirstIn(chain: seq<Id>, s: set<Id>): (r: Id)
    requires exists i :: 0 <= i < |chain| && chain[i] in s
    ensures r in s && r in chain
    ensures exists k :: 0 <= k < |chain| && chain[k] == r && forall j :: 0 <= j < k ==> chain[j] !in s
  {
    if chain[0] in s then chain[0]
    else
      var i :| 0 <= i < |chain| && chain[i] in s;
      assert chain[1..][i - 1] == chain[i];
      var r := FirstIn(chain[1..], s);
      var k :| 0 <= k < |chain[1..]| && chain[1..][k] == r && forall j :: 0 <= j < k ==> chain[1..][j] !in s;
      assert chain[k + 1] == r;
      assert forall j :: 1 <= j < k + 1 ==> chain[j] == chain[1..][j - 1];
      r
  }

  /** The element at `k` is the first in `s` when it is in `s` and none before it is. */
  lemma FirstInAt(chain: seq<Id>, s: set<Id>, k: nat)
    requires k < |chain| && chain[k] in s
    requires forall j :: 0 <= j < k ==> chain[j] !in s
    ensures (exists i :: 0 <= i < |chain| && chain[i] in s) && FirstIn(chain, s) == chain[k]
  {
    var r := FirstIn(chain, s);
    var k' :| 0 <= k' < |chain| && chain[k'] == r && forall j :: 0 <= j < k' ==> chain[j] !in s;
    assert !(k < k') && !(k' < k);
  }

  /**
   * The split point of a merge: walking the given branch's first-parent chain
   * from its tip, the first commit that is also on HEAD's first-parent chain.
   */
  ghost function SplitPoint(commits: map<Id, Commit>, depth: map<Id, nat>, root: Id, head: Id, other: Id): (split: Id)
    requires Ranked(commits, depth) && RootedAt(commits, root)
    requires head in commits && other in commits
    ensures split in commits
    ensures split in Chain(commits, depth, head) && split in Chain(commits, depth, other)
  {
    ChainEndsAtRoot(commits, depth, root, head);
    ChainEndsAtRoot(commits, depth, root, other);
    var c := Chain(commits, depth, other);
    assert c[|c| - 1] in ChainSet(commits, depth, head);
    var r := FirstIn(c, ChainSet(commits, depth, head));
    var k :| 0 <= k < |c| && c[k] == r;
    ChainStored(commits, depth, other, k);
    r
  }

  /**
   * The first loop of findSplitPoint: collects every commit on HEAD's
   * first-parent chain into a set (Main.java:758-764).
   */
  method CollectChain(commits: map<Id, Commit>, ghost depth: map<Id, nat>, head: Id)
    returns (currBranchCommits: set<Id>)
    requires Ranked(commits, depth) && head in commits
    ensures currBranchCommits == ChainSet(commits, depth, head)
  {
    currBranchCommits := {};
    var c := head;
    ghost var mine := Chain(commits, depth, head);
    ghost var k := 0;
    while commits[c].parent.Some?
      invariant c in commits && k < |mine| && mine[k] == c
      invariant currBranchCommits == set j | 0 <= j < k :: mine[j]
      decreases |mine| - k
    {
      ChainLinks(commits, depth, head, k);
      currBranchCommits := currBranchCommits + {c};
      c := commits[c].parent.value;
      k := k + 1;
    }
    if k + 1 < |mine| {
      ChainLinks(commits, depth, head, k);
    }
    currBranchCommits := currBranchCommits + {c};
  }

  /**
   * findSplitPoint: collects HEAD's first-parent chain into a set, then walks
   * the given branch's chain from its tip until it meets that set
   * (Main.java:757-776).
   */
  method FindSplitPoint(commits: map<Id, Commit>, ghost depth: map<Id, nat>, ghost root: Id, head: Id, other: Id)
    returns (split: Id)
    requires Ranked(commits, depth) && RootedAt(commits, root)
    requires head in commits && other in commits
    ensures split == SplitPoint(commits, depth, root, head, other)
    ensures split in commits
    ensures split in Chain(commits, depth, head) && split in Chain(commits, depth, other)
  {
    var currBranchCommits := CollectChain(commits, depth, head);
    ChainEndsAtRoot(commits, depth, root, head);
    ChainEndsAtRoot(commits, depth, root, other);
    var c2 := other;
    ghost var theirs := Chain(commits, depth, other);
    ghost var k2 := 0;
    while c2 !in currBranchCommits
      invariant c2 in commits && k2 < |theirs| && theirs[k2] == c2
      invariant forall j :: 0 <= j < k2 ==> theirs[j] !in currBranchCommits
      decreases |theirs| - k2
    {
      ChainLinks(commits, depth, other, k2);
      c2 := commits[c2].parent.value;
      k2 := k2 + 1;
    }
    split := c2;
    FirstInAt(theirs, currBranchCommits, k2);
  }

  /** When the given branch's tip is on HEAD's chain, it is the split point. */
  lemma SplitIsOtherWhenOtherIsAncestor(commits: map<Id, Commit>, depth: map<Id, nat>, root: Id, head: Id, other: Id)
    requires Ranked(commits, depth) && RootedAt(commits, root)
    requires head in commits && other in commits
    requires other in Chain(commits, depth, head)
    ensures SplitPoint(commits, depth, root, head, other) == other
  {
    FirstInAt(Chain(commits, depth, other), ChainSet(commits, depth, head), 0);
  }

  /**
   * When HEAD lies on the given branch's first-parent chain, HEAD is the split
   * point: the commits before it on that chain are deeper than anything on
   * HEAD's own chain.
   */
  lemma SplitIsHeadWhenHeadOnChain(commits: map<Id, Commit>, depth: map<Id, nat>, root: Id, head: Id, other: Id)
    requires Ranked(commits, depth) && RootedAt(commits, root)
    requires head in commits && other in commits
    requires head in Chain(commits, depth, other)
    ensures SplitPoint(commits, depth, root, head, other) == head
  {
    var c := Chain(commits, depth, other);
    var s := ChainSet(commits, depth, head);
    var k :| 0 <= k < |c| && c[k] == head;
    forall j | 0 <= j < k
      ensures c[j] !in s
    {
      ChainDescends(commits, depth, other, j, k);
      if c[j] in s {
        var i :| 0 <= i < |Chain(commits, depth, head)| && Chain(commits, depth, head)[i] == c[j];
        ChainStored(commits, depth, head, i);
      }
    }
    FirstInAt(c, s, k);
  }
}
