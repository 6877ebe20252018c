/**
 * The working directory as checkout, reset and merge rewrite it: a map from
 * file name to bytes. Deleting a file removes its name; writing a blob's
 * contents sets it. Contents go through a UTF-8 decode and re-encode in the
 * Java code; here they are written unchanged.
 */
module Worktree {
  import opened Objects

  /** The files of a snapshot, as checkout writes them. */
  function Files(data: map<string, Id>, blobs: map<Id, Bytes>): (w: map<string, Bytes>)
    requires Readable(data, blobs)
    ensures w.Keys == data.Keys
    ensures forall n :: n in w ==> w[n] == blobs[data[n]]
  {
    map n | n in data :: blobs[data[n]]
  }

  /**
   * The working tree after `reset` from a HEAD tracking `head` to a commit
   * tracking `target`: the target's files hold its contents, files HEAD
   * tracked that the target lacks are gone, and every other file is kept.
   */
  function ResetWork(work: map<string, Bytes>, head: map<string, Id>, target: map<string, Id>,
                     blobs: map<Id, Bytes>): (w: map<string, Bytes>)
    requires Readable(target, blobs)
    ensures forall n :: n in target ==> n in w && w[n] == blobs[target[n]]
    ensures forall n :: n !in target && n in head ==> n !in w
    ensures forall n :: n !in target && n !in head ==> Lookup(w, n) == Lookup(work, n)
  {
    map n | n in target.Keys + work.Keys && (n in target || n !in head)
      :: if n in target then blobs[target[n]] else work[n]
  }

  /**
   * The deletion loop of checkoutBranch and doReset: every working file that
   * `target` lacks and `tracked` holds is deleted (Main.java:381-391, 573-584).
   */
  method DeleteMissing(work: map<string, Bytes>, target: map<string, Id>, tracked: set<string>)
    returns (w: map<string, Bytes>)
    ensures forall n :: n in w <==> n in work && (n in target || n !in tracked)
    ensures forall n :: n in w ==> w[n] == work[n]
  {
    w := work;
    var currFiles := work.Keys;
    while currFiles != {}
      invariant currFiles <= work.Keys
      invariant forall n :: n in w <==> n in work && (n in currFiles || n in target || n !in tracked)
      invariant forall n :: n in w ==> w[n] == work[n]
      decreases currFiles
    {
      var name :| name in currFiles;
      if name !in target && name in tracked {
        w := w - {name};
      }
      currFiles := currFiles - {name};
    }
  }

  /**
   * The writing loop of checkoutBranch and doReset: every file of `target` is
   * written with its blob's contents (Main.java:393-405, 586-595).
   */
  method WriteFiles(work: map<string, Bytes>, target: map<string, Id>, blobs: map<Id, Bytes>)
    returns (w: map<string, Bytes>)
    requires Readable(target, blobs)
    ensures forall n :: n in w <==> n in work || n in target
    ensures forall n :: n in target ==> w[n] == blobs[target[n]]
    ensures forall n :: n in w && n !in target ==> w[n] == work[n]
  {
    w := work;
    var names := target.Keys;
    while names != {}
      invariant names <= target.Keys
      invariant forall n :: n in w <==> n in work || (n in target && n !in names)
      invariant forall n :: n in target && n !in names ==> w[n] == blobs[target[n]]
      invariant forall n :: n in w && (n !in target || n in names) ==> w[n] == work[n]
      decreases names
    {
      var filename :| filename in names;
      w := w[filename := blobs[target[filename]]];
      names := names - {filename};
    }
  }

  /** Checking out a branch leaves exactly the target commit's files in the working tree. */
  lemma CheckoutWritesSnapshot(work: map<string, Bytes>, target: map<string, Id>, blobs: map<Id, Bytes>,
                               pruned: map<string, Bytes>, written: map<string, Bytes>)
    requires Readable(target, blobs)
    requires forall n :: n in pruned <==> n in work && (n in target || n !in work.Keys)
    requires forall n :: n in written <==> n in pruned || n in target
    requires forall n :: n in target ==> written[n] == blobs[target[n]]
    ensures written == Files(target, blobs)
  {
  }

  /** Resetting deletes and writes exactly as `ResetWork` says. */
  lemma ResetWritesSnapshot(work: map<string, Bytes>, head: map<string, Id>, target: map<string, Id>,
                            blobs: map<Id, Bytes>, pruned: map<string, Bytes>, written: map<string, Bytes>)
    requires Readable(target, blobs)
    requires forall n :: n in pruned <==> n in work && (n in target || n !in head)
    requires forall n :: n in pruned ==> pruned[n] == work[n]
    requires forall n :: n in written <==> n in pruned || n in target
    requires forall n :: n in target ==> written[n] == blobs[target[n]]
    requires forall n :: n in written && n !in target ==> written[n] == pruned[n]
    ensures written == ResetWork(work, head, target, blobs)
  {
  }
}
