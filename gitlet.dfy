/**
 * The Gitlet repository and its commands (Main.java, Stage.java,
 * Commit.getLastCommit).
 *
 * `Repository` holds the two things a command changes: the .gitlet directory,
 * as one `Store` value, and the working directory. A command checks its error
 * conditions in the order the Java code does and leaves everything as it was
 * when one of them fails; otherwise it computes the new directory contents,
 * as the Java code reads the stage object, mutates it and writes it back, and
 * stores them. `Consistent` is the invariant every command keeps.
 */
module Gitlet {
  import opened Objects
  import opened Commits
  import opened Graph
  import opened Outcomes
  import opened History
  import opened Worktree
  import Merge

  /** The file in the branches directory that names the checked-out branch. */
  const CurrentFile: string := "current"

  /**
   * Names that, appended to the branches directory's path, name a directory
   * that always exists: the branches directory itself ("" and ".") and
   * .gitlet (".."). Such a branch file "exists" and cannot be deleted.
   */
  predicate NamesDirectory(name: string)
  {
    name == "" || name == "." || name == ".."
  }

  /**
   * The message of a merge commit (Main.java:736): the merged branch's name
   * after "Merged ", the checked-out branch's name after " into ", and a
   * closing full stop.
   */
  function MergeMessage(branchName: string, currBranchName: string): (m: string)
    ensures |m| == |branchName| + |currBranchName| + 14
    ensures m[..7] == "Merged " && m[7..7 + |branchName|] == branchName
    ensures m[7 + |branchName|..13 + |branchName|] == " into "
    ensures m[13 + |branchName|..|m| - 1] == currBranchName && m[|m| - 1] == '.'
  {
    "Merged " + branchName + " into " + currBranchName + "."
  }

  /**
   * The branch map as doReset writes it: the current branch file receives the
   * id exactly as the user typed it (Main.java:597-600).
   */
  function ResetBranchesAsWritten(branches: map<string, Id>, current: string, typed: string)
    : (b: map<string, string>)
    ensures b.Keys == branches.Keys + {current}
    ensures b[current] == typed
  {
    var stored: map<string, string> := branches;
    stored[current := typed]
  }

  /**
   * After a reset to an abbreviated id, the current branch holds a string that
   * is no stored commit's id, although the id resolved to a stored commit; the
   * next command that reads HEAD finds no commit file.
   */
  lemma AbbreviatedResetLosesHead(commits: map<Id, Commit>, listing: seq<Id>, branches: map<string, Id>,
                                  current: string, typed: string)
    requires Lists(listing, commits) && |typed| < UidLength
    requires Resolve(commits, listing, typed).Ok?
    ensures Resolve(commits, listing, typed).value in commits
    ensures forall id :: id in commits ==> ResetBranchesAsWritten(branches, current, typed)[current] != id
  {
  }

  /**
   * The .gitlet directory: the commits and blobs directories keyed by id, the
   * branch files, the name the `current` file holds, the stage's index and
   * the removed set. `depth` ranks every commit below its children; it only
   * serves the proofs that walks along parents end, and Gitlet stores nothing
   * like it.
   */
  datatype Store = Store(commits: map<Id, Commit>, depth: map<Id, nat>, blobs: map<Id, Bytes>,
                         branches: map<string, Id>, current: string,
                         stage: map<string, Id>, removed: set<string>)

  /**
   * The invariant of a repository: the checked-out branch exists and is not
   * the `current` file itself, every branch names a stored commit, the commit
   * graph is ranked and rooted at `root`, every committed or staged blob id
   * names a stored blob, and the blob store is content-addressed.
   */
  ghost predicate Consistent(h: Hasher, root: Id, s: Store)
  {
    && Linked(s.branches, s.current, s.commits)
    && Ranked(s.commits, s.depth)
    && RootedAt(s.commits, root)
    && Stored(s.commits, s.blobs)
    && Readable(s.stage, s.blobs)
    && ContentAddressed(h, s.blobs)
  }

  /** The checked-out branch exists and is not `current`; every branch names a stored commit. */
  ghost predicate Linked(branches: map<string, Id>, current: string, commits: map<Id, Commit>)
  {
    && current in branches
    && CurrentFile !in branches
    && forall b :: b in branches ==> branches[b] in commits
  }

  /** Every blob id a stored commit records names a stored blob. */
  ghost predicate Stored(commits: map<Id, Commit>, blobs: map<Id, Bytes>)
  {
    forall id {:trigger commits[id]} :: id in commits ==> Readable(commits[id].data, blobs)
  }

  /** Storing a commit whose snapshot the grown blob store can read keeps every snapshot readable. */
  lemma StoredGrows(commits: map<Id, Commit>, blobs: map<Id, Bytes>, c: Commit, blobs': map<Id, Bytes>)
    requires Stored(commits, blobs) && blobs.Keys <= blobs'.Keys && Readable(c.data, blobs')
    ensures Stored(commits[c.sha := c], blobs')
  {
  }

  /** Moving the checked-out branch to a newly stored commit keeps the branches linked. */
  lemma LinkedAdvance(branches: map<string, Id>, current: string, commits: map<Id, Commit>, c: Commit)
    requires Linked(branches, current, commits)
    ensures Linked(branches[current := c.sha], current, commits[c.sha := c])
  {
  }

  /**
   * A command that keeps the commits, only adds blobs, leaves every branch on
   * a stored commit and the stage readable keeps the invariant.
   */
  lemma SameHistory(h: Hasher, root: Id, s: Store, s': Store)
    requires Consistent(h, root, s)
    requires s'.commits == s.commits && s'.depth == s.depth
    requires s.blobs.Keys <= s'.blobs.Keys && ContentAddressed(h, s'.blobs)
    requires s'.current in s'.branches && CurrentFile !in s'.branches
    requires forall b :: b in s'.branches ==> s'.branches[b] in s'.commits
    requires Readable(s'.stage, s'.blobs)
    ensures Consistent(h, root, s')
  {
  }

  /**
   * The store after a new commit on top of HEAD, whose snapshot the grown blob
   * store `blobs` can read, is stored and the checked-out branch advanced to
   * it; the stage and the removed set are left empty. It is consistent again.
   */
  function Advanced(h: Hasher, ghost root: Id, s: Store, c: Commit, blobs: map<Id, Bytes>): (s': Store)
    requires Consistent(h, root, s)
    requires c.sha !in s.commits && c.parent == Some(s.branches[s.current])
    requires c.secondParent.Some? ==> c.secondParent.value in s.commits
    requires s.blobs.Keys <= blobs.Keys && ContentAddressed(h, blobs) && Readable(c.data, blobs)
    ensures Consistent(h, root, s')
  {
    AddChild(s.commits, s.depth, root, c);
    StoredGrows(s.commits, s.blobs, c, blobs);
    LinkedAdvance(s.branches, s.current, s.commits, c);
    Assembled(h, root, s.commits[c.sha := c], s.depth[c.sha := s.depth[c.parent.value] + 1], blobs,
              s.branches[s.current := c.sha], s.current);
    Store(s.commits[c.sha := c], s.depth[c.sha := s.depth[c.parent.value] + 1], blobs,
          s.branches[s.current := c.sha], s.current, map[], {})
  }

  /** A store built from a linked, ranked, rooted and stored commit graph, with an empty stage, is consistent. */
  lemma Assembled(h: Hasher, root: Id, commits: map<Id, Commit>, depth: map<Id, nat>, blobs: map<Id, Bytes>,
                  branches: map<string, Id>, current: string)
    requires Linked(branches, current, commits)
    requires Ranked(commits, depth) && RootedAt(commits, root)
    requires Stored(commits, blobs) && ContentAddressed(h, blobs)
    ensures Consistent(h, root, Store(commits, depth, blobs, branches, current, map[], {}))
  {
  }

  /**
   * What a merge of branch `other` with split point `splitId` records, from
   * store `s` and working tree `work` to `s'` and `work'`: the merge commit on
   * HEAD with the given tip as second parent and the reconciled snapshot, the
   * checked-out branch advanced to it, the working tree rewritten, the conflict
   * files stored as blobs beside the unchanged old ones, and whether any name
   * conflicted.
   */
  ghost predicate MergeRecorded(h: Hasher, s: Store, work: map<string, Bytes>, other: string,
                                time: string, splitId: Id, conflict: bool, s': Store, work': map<string, Bytes>)
    requires Linked(s.branches, s.current, s.commits) && Stored(s.commits, s.blobs)
    requires other in s.branches && splitId in s.commits
  {
    var split := s.commits[splitId].data;
    var cur := s.commits[s.branches[s.current]].data;
    var oth := s.commits[s.branches[other]].data;
    var data := Merge.MergedData(h, s.blobs, split, cur, oth);
    var message := MergeMessage(other, s.current);
    var head := s.branches[s.current];
    var id := CommitId(h, message, time, head, data);
    && id !in s.commits
    && s'.commits == s.commits[id := Commit(message, time, Some(head), Some(s.branches[other]), data, id)]
    && s'.branches == s.branches[s.current := id]
    && s'.current == s.current && s'.stage == map[] && s'.removed == {}
    && Merge.MergedStore(h, s.blobs, split, cur, oth, s'.blobs)
    && work' == Merge.MergedWork(h, s.blobs, split, cur, oth, work)
    && (conflict <==> Merge.Conflicts(split, cur, oth) != {})
  }

  /**
   * The merge commit and working tree that the reconciliation produces are
   * what `MergeRecorded` describes, once the commit is stored on HEAD.
   */
  lemma MergeCommitRecorded(h: Hasher, root: Id, s: Store, work: map<string, Bytes>, other: string, time: string,
                            splitId: Id, c: Commit, blobs: map<Id, Bytes>, work': map<string, Bytes>, conflict: bool)
    requires Consistent(h, root, s)
    requires other in s.branches && splitId in s.commits
    requires var split, cur, oth := s.commits[splitId].data, s.commits[s.branches[s.current]].data,
                                    s.commits[s.branches[other]].data;
             && c.message == MergeMessage(other, s.current) && c.time == time
             && c.parent == Some(s.branches[s.current]) && c.secondParent == Some(s.branches[other])
             && c.data == Merge.MergedData(h, s.blobs, split, cur, oth)
             && c.sha == CommitId(h, c.message, time, s.branches[s.current], c.data) && c.sha !in s.commits
             && Merge.MergedStore(h, s.blobs, split, cur, oth, blobs)
             && work' == Merge.MergedWork(h, s.blobs, split, cur, oth, work)
             && (conflict <==> Merge.Conflicts(split, cur, oth) != {})
    ensures Readable(c.data, blobs)
    ensures MergeRecorded(h, s, work, other, time, splitId, conflict, Advanced(h, root, s, c, blobs), work')
  {
    Merge.MergedStored(h, s.blobs, s.commits[splitId].data, s.commits[s.branches[s.current]].data,
                       s.commits[s.branches[other]].data, blobs);
  }

  class Repository {
    /** SHA-1 and the HashMap value order, fixed for the repository's lifetime. */
    const h: Hasher
    /** The id of the initial commit. */
    const root: Id
    /** The .gitlet directory. */
    var store: Store
    /** The working directory. */
    var work: map<string, Bytes>

    /**
     * The repository invariant: see `Consistent`; and the hasher lists the
     * blob ids of a snapshot as HashMap.values() does.
     */
    ghost predicate Valid()
      reads this
    {
      Consistent(h, root, store) && ListsValues(h)
    }

    /** getLastCommit: the commit the checked-out branch names (Commit.java:116-124). */
    function Head(): (c: Commit)
      reads this
      requires Valid()
      ensures c.sha == store.branches[store.current]
      ensures Readable(c.data, store.blobs)
    {
      store.commits[store.branches[store.current]]
    }

    /**
     * inParentCommit: HEAD tracks `name`, and the working file is either
     * missing or holds exactly the bytes HEAD recorded (Stage.java:87-104).
     */
    predicate InParentCommit(name: string)
      reads this
      requires Valid()
      ensures InParentCommit(name) ==> name in Head().data
      ensures InParentCommit(name) && name in work ==> Digest(h, work[name]) == Head().data[name]
      ensures name in Head().data && name !in work ==> InParentCommit(name)
    {
      var data := Head().data;
      if name !in data then false
      else if name !in work then true
      else work[name] == store.blobs[data[name]]
    }

    /** The split point of a merge of branch `name` into HEAD. */
    ghost function SplitWith(name: string): Id
      reads this
      requires Valid() && name in store.branches
    {
      SplitPoint(store.commits, store.depth, root, store.branches[store.current], store.branches[name])
    }

    /** The merge preconditions hold: another existing branch, nothing staged or removed. */
    predicate Mergeable(name: string)
      reads this
      ensures Mergeable(name) ==> name != store.current && name in store.branches
      ensures Mergeable(name) && Valid() ==> name != CurrentFile && store.branches[name] in store.commits
    {
      name != store.current && name in store.branches && store.stage == map[] && store.removed == {}
    }

    /**
     * init: the root commit, a `master` branch naming it and checked out, an
     * empty stage and removed set (Main.java:171-197, Commit.java:55-66).
     */
    constructor Init(h: Hasher, work: map<string, Bytes>)
      requires ListsValues(h)
      ensures Valid()
      ensures this.h == h && this.work == work && root == RootCommit(h).sha
      ensures store.commits == map[root := RootCommit(h)] && store.depth == map[root := 0] && store.blobs == map[]
      ensures store.branches.Keys == {"master"} && store.branches["master"] == root && store.current == "master"
      ensures store.stage == map[] && store.removed == {}
    {
      var initial := RootCommit(h);
      this.h := h;
      this.root := initial.sha;
      this.work := work;
      var branches: map<string, Id> := map[];
      store := Store(map[initial.sha := initial], map[initial.sha := 0], map[],
                     branches["master" := initial.sha], "master", map[], {});
    }

    /**
     * add (Main.java:201-211, Stage.java:21-54): a file that matches HEAD is
     * unstaged and loses its removal mark; any other file is staged under the
     * digest of its bytes, and its blob is stored, unless that digest is
     * already staged for it. Its removal mark stays in that case.
     */
    method Add(name: string) returns (r: Outcome)
      requires Valid()
      modifies this`store
      ensures Valid()
      ensures name !in work ==> r == Failed(FileDoesNotExist) && store == old(store)
      ensures name in work ==> r == Done
      ensures name in work && old(InParentCommit(name)) ==>
                store == old(store).(stage := old(store.stage) - {name}, removed := old(store.removed) - {name})
      ensures name in work && !old(InParentCommit(name)) ==>
                var d := Digest(h, work[name]);
                store == old(store).(stage := old(store.stage)[name := d],
                                     blobs := if name in old(store.stage) && old(store.stage)[name] == d
                                              then old(store.blobs) else old(store.blobs)[d := work[name]])
    {
      if name !in work {
        return Failed(FileDoesNotExist);
      }
      var s := store;
      var index: map<string, Id> := s.stage;
      var removed: set<string> := s.removed;
      var blobs: map<Id, Bytes> := s.blobs;
      if InParentCommit(name) {
        if name in removed {
          removed := removed - {name};
        }
        if name in index {
          index := index - {name};
        }
        assert removed == s.removed - {name} && index == s.stage - {name};
      } else {
        var b := NewBlob(h, work[name]);
        var sha := b.hash;
        if name !in index {
          index := index[name := sha];
          blobs := blobs[sha := b.contents];
        } else if index[name] == sha {
          assert index[name := sha] == index;
          return Done;
        } else {
          index := index[name := sha];
          blobs := blobs[sha := b.contents];
        }
        PutBlobKeepsStore(h, s.blobs, b.contents);
      }
      var s' := s.(blobs := blobs, stage := index, removed := removed);
      SameHistory(h, root, s, s');
      store := s';
      r := Done;
    }

    /**
     * rm (Main.java:215-221, Stage.java:60-82): fails unless the name is staged,
     * or tracked unmodified and not yet removed; drops any stage entry; a name
     * tracked unmodified and not yet removed is marked and its working file
     * deleted.
     */
    method Remove(name: string) returns (r: Outcome)
      requires Valid()
      modifies this`store, this`work
      ensures Valid()
      ensures name !in old(store.stage) && (!old(InParentCommit(name)) || name in old(store.removed)) ==>
                r == Failed(NoReasonToRemove) && store == old(store) && work == old(work)
      ensures name in old(store.stage) || (old(InParentCommit(name)) && name !in old(store.removed)) ==>
                var marked := old(InParentCommit(name)) && name !in old(store.removed);
                && r == Done
                && store == old(store).(stage := old(store.stage) - {name},
                                        removed := if marked then old(store.removed) + {name} else old(store.removed))
                && work == if marked then old(work) - {name} else old(work)
    {
      var s := store;
      var tracked := InParentCommit(name);
      var untracked := !tracked || name in s.removed;
      if name !in s.stage && untracked {
        return Failed(NoReasonToRemove);
      }
      var index: map<string, Id> := s.stage;
      var removed: set<string> := s.removed;
      if name in index {
        index := index - {name};
      }
      assert index == s.stage - {name};
      if tracked && name !in removed {
        removed := removed + {name};
        if name in work {
          work := work - {name};
        }
        assert work == old(work) - {name};
      }
      var s' := s.(stage := index, removed := removed);
      SameHistory(h, root, s, s');
      store := s';
      r := Done;
    }

    /**
     * commit (Main.java:127-128, 225-251, Commit.java:20-51): rejects an empty
     * message, then an empty stage and removed set; otherwise stores a commit
     * on top of HEAD whose snapshot is HEAD's with the stage applied and the
     * removed names dropped, advances the checked-out branch to it and clears
     * the stage and the removed set.
     */
    method CommitStaged(message: string, time: string) returns (r: Outcome)
      requires Valid()
      modifies this`store
      ensures Valid()
      ensures message == "" ==> r == Failed(EmptyMessage) && store == old(store)
      ensures message != "" && old(store.stage) == map[] && old(store.removed) == {} ==>
                r == Failed(NoChanges) && store == old(store)
      ensures message != "" && (old(store.stage) != map[] || old(store.removed) != {}) ==>
                var data := Snapshot(old(Head().data), old(store.stage), old(store.removed));
                var parent := old(store.branches[store.current]);
                var id := CommitId(h, message, time, parent, data);
                if id in old(store.commits) then r == Failed(IdInUse) && store == old(store)
                else
                  && r == Done
                  && store.commits == old(store.commits)[id := Commit(message, time, Some(parent), None, data, id)]
                  && store.branches == old(store.branches)[old(store.current) := id]
                  && store.blobs == old(store.blobs) && store.current == old(store.current)
                  && store.stage == map[] && store.removed == {}
    {
      if message == "" {
        return Failed(EmptyMessage);
      }
      var s := store;
      if s.stage == map[] && s.removed == {} {
        return Failed(NoChanges);
      }
      var lastCommit := s.branches[s.current];
      var c := NewCommit(h, message, time, lastCommit, Head().data, s.stage, s.removed);
      if c.sha in s.commits {
        return Failed(IdInUse);
      }
      store := Advanced(h, root, s, c, s.blobs);
      r := Done;
    }

    /**
     * branch (Main.java:255-270): a new branch naming HEAD's commit, unless a
     * file of that name is already in the branches directory: another branch,
     * the `current` file, or a name that resolves to a directory.
     */
    method Branch(name: string) returns (r: Outcome)
      requires Valid()
      modifies this`store
      ensures Valid()
      ensures name in old(store.branches) || name == CurrentFile || NamesDirectory(name) ==>
                r == Failed(BranchExists) && store == old(store)
      ensures name !in old(store.branches) && name != CurrentFile && !NamesDirectory(name) ==>
                r == Done && store == old(store).(branches := old(store.branches)[name := old(store.branches[store.current])])
    {
      var s := store;
      if name in s.branches || name == CurrentFile || NamesDirectory(name) {
        return Failed(BranchExists);
      }
      var lastCommit := s.branches[s.current];
      var s' := s.(branches := s.branches[name := lastCommit]);
      SameHistory(h, root, s, s');
      store := s';
      r := Done;
    }

    /**
     * rm-branch (Main.java:274-290): refuses the checked-out branch, then a
     * missing one; otherwise deletes the branch and no commit. A name that
     * resolves to a directory passes the existence check, and deleting that
     * non-empty directory silently does nothing.
     */
    method RemoveBranch(name: string) returns (r: Outcome)
      requires Valid()
      modifies this`store
      ensures Valid()
      ensures name == old(store.current) ==> r == Failed(CannotRemoveCurrent) && store == old(store)
      ensures name != old(store.current) && NamesDirectory(name) ==> r == Done && store == old(store)
      ensures name != old(store.current) && !NamesDirectory(name) && name !in old(store.branches) ==>
                r == Failed(BranchNotFound) && store == old(store)
      ensures name != old(store.current) && !NamesDirectory(name) && name in old(store.branches) ==>
                r == Done && store == old(store).(branches := old(store.branches) - {name})
    {
      var s := store;
      if name == s.current {
        return Failed(CannotRemoveCurrent);
      }
      if NamesDirectory(name) {
        return Done;
      }
      if name !in s.branches {
        return Failed(BranchNotFound);
      }
      var s' := s.(branches := s.branches - {name});
      SameHistory(h, root, s, s');
      store := s';
      r := Done;
    }

    /**
     * checkout -- name (Main.java:307-324): writes HEAD's version of the file
     * into the working directory.
     */
    method CheckoutFile(name: string) returns (r: Outcome)
      requires Valid()
      modifies this`work
      ensures Valid()
      ensures name !in Head().data ==> r == Failed(FileNotInCommit) && work == old(work)
      ensures name in Head().data ==> r == Done && work == old(work)[name := store.blobs[Head().data[name]]]
    {
      var c := Head();
      if name !in c.data {
        return Failed(FileNotInCommit);
      }
      var blobFileName := c.data[name];
      work := work[name := store.blobs[blobFileName]];
      r := Done;
    }

    /**
     * checkout id -- name (Main.java:328-368): resolves a full or abbreviated
     * id, then writes that commit's version of the file.
     */
    method CheckoutFileFrom(typed: string, listing: seq<Id>, name: string) returns (r: Outcome)
      requires Valid() && Lists(listing, store.commits)
      modifies this`work
      ensures Valid()
      ensures Resolve(store.commits, listing, typed).Err? ==> r == Failed(NoCommitWithId) && work == old(work)
      ensures Resolve(store.commits, listing, typed).Ok? ==>
                var c := store.commits[Resolve(store.commits, listing, typed).value];
                && (name !in c.data ==> r == Failed(FileNotInCommit) && work == old(work))
                && (name in c.data ==> r == Done && work == old(work)[name := store.blobs[c.data[name]]])
    {
      var s := store;
      var found := ResolveId(s.commits, listing, typed);
      if found.Err? {
        return Failed(found.error);
      }
      var c := s.commits[found.value];
      if name !in c.data {
        return Failed(FileNotInCommit);
      }
      var blobFileName := c.data[name];
      work := work[name := s.blobs[blobFileName]];
      r := Done;
    }

    /**
     * checkout branch (Main.java:55-65, 372-414): the branch must exist and not
     * be checked out; every working file its commit lacks is deleted, its files
     * are written, it becomes the checked-out branch, and the stage and removed
     * set are cleared.
     */
    method CheckoutBranch(name: string) returns (r: Outcome)
      requires Valid()
      modifies this`store, this`work
      ensures Valid()
      ensures name !in old(store.branches) ==> r == Failed(NoSuchBranch) && store == old(store) && work == old(work)
      ensures name in old(store.branches) && name == old(store.current) ==>
                r == Failed(NoNeedToCheckout) && store == old(store) && work == old(work)
      ensures name in old(store.branches) && name != old(store.current) ==>
                && r == Done
                && store == old(store).(current := name, stage := map[], removed := {})
                && work == Files(store.commits[store.branches[name]].data, store.blobs)
    {
      var s := store;
      if name !in s.branches {
        return Failed(NoSuchBranch);
      }
      if name == s.current {
        return Failed(NoNeedToCheckout);
      }
      var c := s.commits[s.branches[name]];
      var pruned := DeleteMissing(work, c.data, work.Keys);
      var written := WriteFiles(pruned, c.data, s.blobs);
      CheckoutWritesSnapshot(work, c.data, s.blobs, pruned, written);
      var s' := s.(current := name, stage := map[], removed := {});
      SameHistory(h, root, s, s');
      store := s';
      work := written;
      r := Done;
    }

    /**
     * The effect of doReset once the commit is found (Main.java:569-600), with
     * the resolved id stored in the checked-out branch.
     */
    method ResetTo(id: Id)
      requires Valid() && id in store.commits
      modifies this`store, this`work
      ensures Valid()
      ensures store == old(store).(branches := old(store.branches)[old(store.current) := id])
      ensures work == ResetWork(old(work), old(Head().data), store.commits[id].data, store.blobs)
    {
      var s := store;
      var c := s.commits[id];
      var curr := Head();
      var pruned := DeleteMissing(work, c.data, curr.data.Keys);
      var written := WriteFiles(pruned, c.data, s.blobs);
      ResetWritesSnapshot(work, curr.data, c.data, s.blobs, pruned, written);
      var s' := s.(branches := s.branches[s.current := id]);
      SameHistory(h, root, s, s');
      store := s';
      work := written;
    }

    /**
     * reset (Main.java:545-601): resolves the id as checkout does, deletes the
     * working files HEAD tracks and the commit lacks, writes the commit's
     * files and moves the checked-out branch to it. The stage and removed set
     * are left as they are.
     */
    method Reset(typed: string, listing: seq<Id>) returns (r: Outcome)
      requires Valid() && Lists(listing, store.commits)
      modifies this`store, this`work
      ensures Valid()
      ensures Resolve(old(store.commits), listing, typed).Err? ==>
                r == Failed(NoCommitWithId) && store == old(store) && work == old(work)
      ensures Resolve(old(store.commits), listing, typed).Ok? ==>
                var id := Resolve(old(store.commits), listing, typed).value;
                && r == Done
                && store == old(store).(branches := old(store.branches)[old(store.current) := id])
                && work == ResetWork(old(work), old(Head().data), store.commits[id].data, store.blobs)
    {
      var found := ResolveId(store.commits, listing, typed);
      if found.Err? {
        return Failed(found.error);
      }
      ResetTo(found.value);
      r := Done;
    }

    /**
     * The reconciliation and merge commit of doMerge once neither fast path
     * applies (Main.java:630-747).
     */
    method CommitMerge(branchName: string, time: string, splitId: Id) returns (r: Outcome)
      requires Valid() && Mergeable(branchName) && splitId in store.commits
      modifies this`store, this`work
      ensures Valid()
      ensures r.Merged? || (r == Failed(IdInUse) && store == old(store) && work == old(work))
      ensures r.Merged? ==> MergeRecorded(h, old(store), old(work), branchName, time, splitId, r.conflict, store, work)
    {
      var s := store;
      var headId := s.branches[s.current];
      var otherId := s.branches[branchName];
      var split := s.commits[splitId].data;
      var curr := s.commits[headId].data;
      var other := s.commits[otherId].data;
      var newContents, merged, blobs, isConflict := Merge.Reconcile(h, s.blobs, split, curr, other, work);
      var mergeCommit := NewMergeCommit(h, MergeMessage(branchName, s.current), time, headId, otherId, newContents);
      if mergeCommit.sha in s.commits {
        return Failed(IdInUse);
      }
      MergeCommitRecorded(h, root, s, work, branchName, time, splitId, mergeCommit, blobs, merged, isConflict);
      store := Advanced(h, root, s, mergeCommit, blobs);
      work := merged;
      r := Merged(isConflict);
    }

    /**
     * merge (Main.java:70-91, 605-627): checks the preconditions in order; if
     * the given branch's tip is the split point nothing changes; if HEAD is,
     * the effect is a reset to the given tip; otherwise the merge commit is made.
     */
    method MergeBranch(branchName: string, time: string) returns (r: Outcome)
      requires Valid()
      modifies this`store, this`work
      ensures Valid()
      ensures branchName == old(store.current) ==>
                r == Failed(MergeWithSelf) && store == old(store) && work == old(work)
      ensures branchName != old(store.current) && branchName !in old(store.branches) ==>
                r == Failed(BranchNotFound) && store == old(store) && work == old(work)
      ensures branchName != old(store.current) && branchName in old(store.branches)
              && (old(store.stage) != map[] || old(store.removed) != {}) ==>
                r == Failed(UncommittedChanges) && store == old(store) && work == old(work)
      ensures old(Mergeable(branchName)) && old(SplitWith(branchName)) == old(store.branches[branchName]) ==>
                r == UpToDate && store == old(store) && work == old(work)
      ensures old(Mergeable(branchName)) && old(SplitWith(branchName)) != old(store.branches[branchName])
              && old(SplitWith(branchName)) == old(store.branches[store.current]) ==>
                && r == FastForwarded
                && store == old(store).(branches := old(store.branches)[old(store.current) := old(store.branches[branchName])])
                && work == ResetWork(old(work), old(Head().data), store.commits[old(store.branches[branchName])].data, store.blobs)
      ensures old(Mergeable(branchName)) && old(SplitWith(branchName)) != old(store.branches[branchName])
              && old(SplitWith(branchName)) != old(store.branches[store.current]) ==>
                r.Merged? || (r == Failed(IdInUse) && store == old(store) && work == old(work))
      ensures r.Merged? ==>
                old(Mergeable(branchName))
                && MergeRecorded(h, old(store), old(work), branchName, time, old(SplitWith(branchName)), r.conflict, store, work)
    {
      var s := store;
      if branchName == s.current {
        return Failed(MergeWithSelf);
      }
      if branchName !in s.branches {
        return Failed(BranchNotFound);
      }
      if s.stage != map[] || s.removed != {} {
        return Failed(UncommittedChanges);
      }
      var headId := s.branches[s.current];
      var otherId := s.branches[branchName];
      var splitId := FindSplitPoint(s.commits, s.depth, root, headId, otherId);
      if splitId == otherId {
        return UpToDate;
      }
      if splitId == headId {
        ResetTo(otherId);
        return FastForwarded;
      }
      r := CommitMerge(branchName, time, splitId);
    }
  }
}
