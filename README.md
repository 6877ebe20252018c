# Gitlet, modelled in Dafny

Gitlet is a small version-control system in the style of Git. A repository
lives in a `.gitlet` directory next to the user's files:

- a `commits` directory of serialized commits, each named by its SHA-1 id;
- a `blobs` directory of file contents, each named by the SHA-1 of its bytes;
- a `branches` directory with one file per branch holding the id of the
  branch's tip, plus a file `current` naming the checked-out branch;
- a `stage` file holding the staging area (an index from file name to blob
  id) and the set of names marked for removal.

This project models the commands that change that directory and the working
directory: `init`, `add`, `rm`, `commit`, `branch`, `rm-branch`, the three
forms of `checkout`, `reset`, `find` and `merge`, together with the commit
constructors, the staging rules and the search for a merge's split point.

## How the system is represented

- `Objects` — bytes, 40-character ids, blobs (Blob.java). SHA-1 is not
  computed: every operation takes a `Hasher` whose `sha1` field is an
  arbitrary function from chunks to ids, and whose `values` field is the
  order in which a `HashMap` yields a commit's blob ids. The repository
  invariant asks of `values` only what `HashMap.values()` guarantees
  (`ListsValues`): it lists every blob id of the map as often as the map
  records it, in some order. Every property is proved for all such hashers.
- `Commits` — the `Commit` record and its three constructors
  (Commit.java). The id is `sha1` of message, timestamp, parent id and the
  blob ids, computed by filling an array of chunks as the Java code does.
  The timestamp of a new commit is a parameter.
- `Graph` — the commit graph as a map from id to commit. A proof-only rank
  `depth` puts every commit above its parent, so first-parent walks
  terminate. `FindSplitPoint` runs the two loops of `findSplitPoint`.
- `Merge` — the file-by-file reconciliation of `doMerge`. `DecideAsWritten`
  is the rule the Java code follows for one file name, and `Decide` the
  three-way rule it was meant to follow; `RulesDiffer` says exactly where
  they part (see Findings). The Java method has five loops. The first four
  are modelled one step per name, including the fact that `currNames` and
  `otherNames` are live key views of the two commits' maps, so removing a
  name from them hides it from later `get` calls. The fifth is proved never
  to have a name to visit. `Reconcile` runs the loops and is proved to agree
  with `DecideAsWritten` on every name; it also states the bytes of every
  blob the merge stores.
- `History` — resolving a typed (possibly abbreviated) commit id against the
  commits directory listing, and `find`. The listing order is a parameter.
- `Worktree` — the working directory as a map from file name to bytes, and
  the deletion and writing loops shared by `checkout` and `reset`.
- `Gitlet` — the class `Repository`, whose field `store` is the whole
  `.gitlet` directory and whose field `work` is the working directory. Each
  command is a method: it checks the error conditions in the order the Java
  code checks them, leaves everything unchanged when one fails, and
  otherwise states the new directory contents outright. `Valid` (built on
  `Consistent`) is the invariant every command keeps: branches name stored
  commits, every commit's blobs are stored, blobs are stored under their own
  digest, the graph is ranked and every first-parent chain ends at the root
  commit, and the checked-out branch exists.

Errors are the `Error` values of `Outcomes`: one per message the Java code
throws, plus `IdInUse`, an error of the model only, for a new commit whose id
is already stored (see `Gitlet.Repository.CommitStaged` under Left out).
`Outcomes.Message` gives each message's text.

Where the written description of the system and the code disagree, the
model follows the code:

- A file changed on one side and deleted on the other is not a merge
  conflict in the code. If the side that still has the file left it
  unchanged from the split point, the file is deleted (Main.java:652-662).
  Otherwise the side that still has the file wins.
- When both sides still have a file and only the current side changed it,
  the merge commit records the split's version (Main.java:646-651), while
  the working file keeps the current edit. The model follows the code.
- An abbreviated id that several commits share resolves to the first
  matching commit in the directory listing. No ambiguity error is raised.

## Model

| member | source | states |
|---|---|---|
| Objects.NewBlob | Blob.java:15-18 | a blob holds exactly the file's bytes, and its name is the SHA-1 of those bytes |
| Objects.SameBytesSameBlob | Blob.java:15-18 | two blobs are equal exactly when their bytes are equal, so equal contents always share one blob file |
| Objects.PutBlobKeepsStore | Stage.java:37-52 | writing a blob under its own digest keeps every stored blob under its digest and adds only that one name |
| Commits.ComputeId | Commit.java:41-51 | the id is SHA-1 over message, timestamp, parent id, then the blob ids in the order `values` lists them; under the repository invariant that list holds each recorded blob id once per file (see Objects.ValuesListed) |
| Objects.ValuesListed | Commit.java:41-42 | `data.values()` lists one id per tracked file, and an id occurs in it exactly when some file of the snapshot records it |
| Objects.InValueBag | Commit.java:41 | the multiset of a snapshot's ids holds an id exactly when some file records it |
| Commits.IdIgnoresFileNames | Commit.java:41-51 | two snapshots whose blob ids come out in the same order give the same commit id: file names do not enter the hash |
| Commits.Snapshot | Commit.java:26-39 | a new commit tracks a name exactly when the parent or the stage has it and it is not marked removed; a staged blob overrides the parent's |
| Commits.RemovalWinsOverStaging | Commit.java:35-39 | a name both staged and marked removed is not tracked by the new commit |
| Commits.RootCommit | Commit.java:55-66 | the initial commit has the message "initial commit", the epoch timestamp, no parents and no files, and its id hashes only message and timestamp |
| Commits.NewCommit | Commit.java:20-51 | a normal commit has the given message and time, one parent, the snapshot of parent and stage, and the id of those fields |
| Commits.NewMergeCommit | Commit.java:72-91 | a merge commit has both parents, exactly the given files, and the id of message, time, first parent and files |
| Graph.AddChild | Main.java:238-241 | storing a new commit whose parents are stored keeps the graph ranked and every chain ending at the same root |
| Graph.ChainDescends | Main.java:759-762 | the rank strictly falls along a first-parent chain, so the walk never revisits a commit and stops |
| Graph.ChainEndsAtRoot | Main.java:759-764 | every first-parent chain ends at the initial commit |
| Graph.SplitPoint | Main.java:757-776 | the split point is a stored commit on both the current and the given branch's first-parent chain |
| Graph.CollectChain | Main.java:758-764 | the first loop collects exactly the ids on HEAD's first-parent chain |
| Graph.FindSplitPoint | Main.java:757-776 | the result is the first commit on the given branch's chain that is also on HEAD's chain; it lies on both chains |
| Graph.SplitIsOtherWhenOtherIsAncestor | Main.java:620-623 | when the given tip is on HEAD's chain the split point is the given tip, so merge reports an ancestor |
| Graph.SplitIsHeadWhenHeadOnChain | Main.java:624-627 | when HEAD is on the given branch's chain the split point is HEAD, so merge fast-forwards |
| Merge.ConflictText | Main.java:690-711 | a conflict file is as long as the three markers and both versions together |
| Merge.ConflictTextParts | Main.java:690-711 | both versions can be read back from between the markers |
| Merge.ConflictTextInjective | Main.java:710-711 | for current versions of equal length, two conflict files are equal exactly when both versions are |
| Merge.ConflictTextAmbiguous | Main.java:710-711 | without that length condition a conflict file does not determine its two versions: a current version ending in the middle marker gives the same file as a shorter one with the marker moved into the other version |
| Merge.MergeLaws | Main.java:630-732 | the intended rule: a file both sides agree on is kept; a side unchanged from the split yields to the other; a conflict arises exactly when both sides hold different versions that both differ from the split |
| Merge.DecideAsWritten | Main.java:633-663 | the code's per-file rule gives another verdict than the intended one only when both sides hold the file and other's is the split's: it then keeps other's (the split's) id where the intended rule keeps current's |
| Merge.AsWrittenLaws | Main.java:630-663 | the rule as written: agreeing sides are kept, an unchanged current side yields to the other, but when both sides hold the file and the other is unchanged the other's (the split's) id is recorded; conflicts arise exactly as in the intended rule, and a file is deleted exactly when only current has it, unchanged |
| Merge.RulesDiffer | Main.java:646-651 | the two rules give different verdicts exactly when both sides hold the file and only current changed it; there the code records the split's id and the intended rule the current one; they always agree on whether the working file is touched |
| Merge.AsWrittenDropsCurrentEdit | Main.java:646-651 | when only the current side changed a file, the code as written records the split's version, while the intended rule records the current edit |
| Merge.VisitSplit | Main.java:633-663 | one step of the split loop changes the visited name's state as the code's split step says (recording other's id when only current changed the file) and no other name's |
| Merge.SplitPass | Main.java:632-665 | after the split loop every name of the split has had the code's split step applied and every other name is untouched |
| Merge.VisitCurrent | Main.java:667-675 | one step of the current-names loop changes only the visited name, and schedules it for removal only when the other commit lacks it |
| Merge.CurrentPass | Main.java:666-677 | after the loop and the removeAll, every name is as the current-names rule says |
| Merge.VisitOther | Main.java:680-686 | one step of the other-names loop changes only the visited name and leaves both key views as they were |
| Merge.OtherPass | Main.java:679-688 | after the loop and the removeAll, every name is as the other-names rule says |
| Merge.VisitConflict | Main.java:695-717 | one conflict step writes the conflict file for the visited name and stores its blob under its digest |
| Merge.ConflictPass | Main.java:695-717 | after the conflict loop every name is as the conflict rule says; the blob store stays content-addressed, grows by exactly the conflict files' digests, keeps the bytes of every other blob, and holds under each new digest the conflict file of some visited name |
| Merge.ConflictFilesStored | Main.java:695-717 | the store the conflict loop leaves is the merge's store: old blobs unchanged, each conflict digest holding the conflict text of a conflicting name's two versions |
| Merge.PassesFollowRule | Main.java:630-732 | for every name, the loops record the id `DecideAsWritten` chooses and leave the working file as it says; the names left for the conflict loop are exactly the conflicts, with both versions, and no name is left for the fifth loop |
| Merge.FirstPasses | Main.java:630-688 | the first three loops leave every name as the composition of the code's split, current and other steps says |
| Merge.ConflictsFromSlots | Main.java:693 | the merge reports a conflict exactly when some name conflicts, and the blobs stored are exactly the conflicting names' files |
| Merge.MergedFromSlots | Main.java:630-732 | the recorded snapshot and the working files after the loops are those `DecideAsWritten` gives name by name |
| Merge.MergedStored | Main.java:713-716 | every blob the merge snapshot names is stored afterwards |
| Merge.Reconcile | Main.java:630-732 | the new snapshot and working tree are those of `DecideAsWritten` name by name, the conflict flag is set exactly when some file conflicts, and the store grows by exactly the conflict blobs, each under its digest and holding the conflict text of a conflicting name, with every old blob unchanged |
| History.FirstWithPrefix | Main.java:331-341 | no result exactly when no listed id starts with the typed text; otherwise the first listed id that does |
| History.Resolve | Main.java:329-350 | a short id resolves exactly when some stored id starts with it, to the first listed match; a full-length id resolves exactly when it is stored; otherwise "No commit with that id exists." |
| History.ResolveId | Main.java:548-567 | the lookup loop finds exactly what `Resolve` says |
| History.FullIdResolves | Main.java:344-350 | a stored full id always resolves to itself |
| History.FindByMessage | Main.java:525-540 | `find` reports exactly the stored commits with that message, and fails exactly when there is none |
| Worktree.ResetWork | Main.java:573-595 | after a reset the target's files hold its contents, files HEAD tracked that the target lacks are gone, and every other file is kept |
| Worktree.DeleteMissing | Main.java:381-391 | the deletion loop removes exactly the working files the target lacks among those tracked, and changes no contents |
| Worktree.WriteFiles | Main.java:393-405 | the writing loop gives every target file its blob's contents and leaves every other file as it was |
| Worktree.CheckoutWritesSnapshot | Main.java:372-405 | checking out a branch leaves exactly the target commit's files in the working directory |
| Worktree.ResetWritesSnapshot | Main.java:573-595 | the deletion and writing loops of reset together produce `ResetWork` |
| Gitlet.ResetBranchesAsWritten | Main.java:597-600 | the code as written stores the id exactly as typed in the current branch's file |
| Gitlet.AbbreviatedResetLosesHead | Main.java:597-600 | after a reset to an abbreviated id that resolved, the current branch names no stored commit |
| Gitlet.Advanced | Main.java:238-249 | storing a new commit on HEAD, moving the branch and clearing the stage keeps the repository consistent |
| Gitlet.MergeCommitRecorded | Main.java:734-742 | the merge commit (message "Merged B into C.", both parents, the as-written snapshot) has all its files stored, and the repository after it holds that commit with the branch moved to it, the merged store and an empty stage |
| Gitlet.MergeMessage | Main.java:736 | the message is "Merged ", the given branch, " into ", the current branch and a full stop, in that order |
| Gitlet.Repository.Head | Commit.java:116-124 | the last commit is the one the current branch names, and all its blobs are stored |
| Gitlet.Repository.InParentCommit | Stage.java:87-104 | a file counts as in the parent commit only when HEAD tracks it; a working file then has HEAD's digest; a tracked file missing from the working directory always counts |
| Gitlet.Repository.Mergeable | Main.java:70-91 | the merge checks pass only for another, existing branch, and then that branch names a stored commit and is not the `current` file |
| Gitlet.Repository.Init | Main.java:171-197 | a new repository holds only the initial commit, branch "master" at it and checked out, no blobs and an empty stage |
| Gitlet.Repository.Add | Stage.java:21-54 | a missing file fails; a file identical to HEAD's version is unstaged and unmarked; otherwise its blob is stored and staged under its name |
| Gitlet.Repository.Remove | Stage.java:60-82 | a name that is not staged, and is untracked by HEAD or already marked removed, fails; otherwise it is unstaged, and if HEAD tracks it, marked removed and deleted from the working directory |
| Gitlet.Repository.CommitStaged | Main.java:225-251 | empty message and empty stage fail; otherwise the new commit holds the snapshot of HEAD and stage, the branch moves to it, and the stage is cleared |
| Gitlet.Repository.Branch | Main.java:255-270 | a name already present in the branches directory fails: another branch, the `current` file, or "", "." and "..", which name existing directories; otherwise a new branch points at HEAD and nothing else changes |
| Gitlet.Repository.RemoveBranch | Main.java:274-290 | removing the current branch fails; "", "." and ".." pass both checks and the delete of a non-empty directory does nothing; otherwise a missing branch fails and an existing one is the only thing removed |
| Gitlet.Repository.CheckoutFile | Main.java:307-324 | the file takes HEAD's version, or the command fails when HEAD does not track it |
| Gitlet.Repository.CheckoutFileFrom | Main.java:328-368 | an unknown id or an untracked name fails; otherwise the file takes that commit's version |
| Gitlet.Repository.CheckoutBranch | Main.java:372-414 | a missing or current branch fails; otherwise the branch is checked out, the stage cleared and the working directory holds exactly its tip's files |
| Gitlet.Repository.ResetTo | Main.java:569-600 | the current branch moves to the commit and the working directory is reset to its files |
| Gitlet.Repository.Reset | Main.java:545-601 | an unknown id fails; otherwise the current branch moves to the resolved full id and the working directory is reset |
| Gitlet.Repository.CommitMerge | Main.java:630-747 | the merge commit and working tree are those of the code's rule, with both parents, the branch moves to it, the conflict files are stored with their bytes, and the conflict flag is set exactly when some file conflicts |
| Gitlet.Repository.MergeBranch | Main.java:605-627 | merging the current or a missing branch, or with staged changes, fails, in that order; an ancestor leaves everything; a descendant fast-forwards by reset; otherwise the merge commit of the code's rule is recorded with the merged store and working tree |

## Left out

- The untracked-file check that `checkout`, `reset` and `merge` run first is not modelled; the commands proceed as if it passed.
- `log`, `global-log` and `status` only print, and the printed messages of `merge` become the `Outcome` values `UpToDate`, `FastForwarded` and `Merged(conflict)`.
- The argument-count and operand checks of the command dispatcher are not modelled.
- `init` in a directory that already holds a repository is not modelled: `Repository.Init` always starts from nothing.
- Gitlet.Repository.CommitStaged: when the new id is already stored, the code would overwrite that commit file; the model fails with `IdInUse` (an error of the model only) and changes nothing, which keeps the graph acyclic.
- Gitlet.Repository.CommitMerge: when the merge commit's id is already stored, the model fails with `IdInUse` and changes nothing, where the code would overwrite that commit file.
- Gitlet.Repository.MergeBranch: inherits the same `IdInUse` failure from `CommitMerge`.
- File contents are decoded and re-encoded as UTF-8 when checkout and merge write them; the model writes the bytes unchanged, which differs for bytes that are not valid UTF-8.
- In the second merge loop the code removes names from `currNames` while iterating over it, which Java may answer with a `ConcurrentModificationException`; the model lets every removal take effect and the loop run to the end.
- The fifth merge loop (Main.java:719-732) is proved never to have a name to visit, so it has no step of its own.
- The null checks on `split.data()` and on a commit's data are not modelled: a commit always has a (possibly empty) file map.
- Stage.java:42-44 deletes a blob file named after a null id, which has no effect; it is not modelled.
- Checking out, merging or removing a branch named `current` reads (or deletes) the pointer file as a branch in the code; this is not modelled.
- Gitlet.Repository.CheckoutBranch: a branch name that resolves to a directory ("", ".", "..") or contains a path separator is assumed not to occur; the code would pass the existence check and then fail reading a directory.
- Gitlet.Repository.MergeBranch: likewise for the name of the branch to merge.
- Gitlet.Repository.Branch: a name containing a path separator is assumed not to occur (the code would fail writing the branch file).
- Gitlet.Repository.Add: file names are assumed to be plain file names; `add` of "", "." or ".." reaches a directory and makes the code throw, which is not modelled.
- SHA-1, the `HashMap` value order and the commits directory listing order are parameters, not computed.
- History.FindByMessage: states which ids are reported, not the order in which the listing prints them.

## Findings

| source | as written | input that shows it | evidently intended | confidence | as-written member | corrected member |
|---|---|---|---|---|---|---|
| Main.java:646-651 | when a file is the same in the split and the other branch but changed on the current branch, the merge records the other branch's (the split's) blob id, while the working file keeps the current edit | split {b: X}, current {b: Y}, other {b: X}, X different from Y: the merge commit tracks X | keep the current branch's blob id Y | high; not executed | Merge.DecideAsWritten, Merge.AsWrittenDropsCurrentEdit, Merge.RulesDiffer | Merge.Decide, Merge.MergeLaws |
| Main.java:597-600 | `reset` writes the id exactly as typed into the current branch's file, even when it was an abbreviation | `reset` with the first six characters of a stored commit's id: the branch then names no commit file | write the full id of the resolved commit | high; not executed | Gitlet.ResetBranchesAsWritten, Gitlet.AbbreviatedResetLosesHead | Gitlet.Repository.Reset |
