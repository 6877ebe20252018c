/**
 * How a Gitlet command ends. The Java code reports a failure by throwing a
 * GitletException whose message is printed; here each failure is a value of
 * `Error`, and `Message` gives the exact text the user sees.
 */
module Outcomes {

  datatype Error =
    | FileDoesNotExist        // add of a missing working file
    | NoReasonToRemove        // rm of a name neither staged nor tracked
    | EmptyMessage            // commit with an empty message
    | NoChanges               // commit with an empty stage and removed set
    | IdInUse                 // a new commit would overwrite a stored commit; the Java code has no such error
    | BranchExists            // branch of a taken name
    | CannotRemoveCurrent     // rm-branch of the checked-out branch
    | BranchNotFound          // rm-branch or merge of a missing branch
    | FileNotInCommit         // checkout of a name the commit does not track
    | NoCommitWithId          // checkout or reset of an unknown id
    | NoSuchBranch            // checkout of a missing branch
    | NoNeedToCheckout        // checkout of the checked-out branch
    | NoCommitWithMessage     // find without a match
    | MergeWithSelf           // merge of the checked-out branch
    | UncommittedChanges      // merge with a non-empty stage or removed set

  /** The text each failure prints. */
  function Message(e: Error): string
  {
    match e
    case FileDoesNotExist => "File does not exist."
    case NoReasonToRemove => "No reason to remove the file."
    case EmptyMessage => "Please enter a commit message."
    case NoChanges => "No changes added to the commit."
    case IdInUse => "A commit with that id already exists."
    case BranchExists => "A branch with that name already exists."
    case CannotRemoveCurrent => "Cannot remove the current branch."
    case BranchNotFound => "A branch with that name does not exist."
    case FileNotInCommit => "File does not exist in that commit."
    case NoCommitWithId => "No commit with that id exists."
    case NoSuchBranch => "No such branch exists."
    case NoNeedToCheckout => "No need to checkout the current branch."
    case NoCommitWithMessage => "Found no commit with that message."
    case MergeWithSelf => "Cannot merge a branch with itself."
    case UncommittedChanges => "You have uncommitted changes."
  }

  /** The value of a lookup, or the failure it ends in. */
  datatype Result<T> = Ok(value: T) | Err(error: Error)

  /** How a command that changes the repository ends. */
  datatype Outcome =
    | Done
    | UpToDate                  // merge: the given branch is an ancestor of HEAD
    | FastForwarded             // merge: HEAD is an ancestor of the given branch
    | Merged(conflict: bool)    // merge: a merge commit was made
    | Failed(error: Error)
}
