/**
 * Commits (Commit.java): immutable snapshots of file name -> blob id maps with
 * their message, timestamp and parent links, identified by a SHA-1 over the
 * message, the timestamp, the parent id and the snapshot's blob ids.
 */
module Commits {
  import opened Objects

  /** Message of the root commit made by `init`. */
  const InitialMessage: string := "initial commit"

  /** LocalDateTime.of(1970, 1, 1, 0, 0).toString(): the root commit's timestamp. */
  const InitialTime: string := "1970-01-01T00:00"

  /**
   * A commit. `time` is the timestamp as LocalDateTime.toString() prints it,
   * `parent` is None only for the root commit, `secondParent` is Some only for
   * merge commits, and `data` maps each tracked file name to its blob id.
   */
  datatype Commit = Commit(
    message: string,
    time: string,
    parent: Option<Id>,
    secondParent: Option<Id>,
    data: map<string, Id>,
    sha: Id)

  /** The strings of a list of blob ids, as they are copied into the hashed array. */
  function Texts(ids: seq<Id>): (r: seq<Chunk>)
    ensures |r| == |ids|
    ensures forall i :: 0 <= i < |ids| ==> r[i] == Text(ids[i])
  {
    seq(|ids|, i requires 0 <= i < |ids| => Text(ids[i]))
  }

  /**
   * The id of a normal or merge commit: sha1 of the message, the timestamp, the
   * parent id and the blob ids of the snapshot in map order.
   */
  function CommitId(h: Hasher, message: string, time: string, parent: Id, data: map<string, Id>): Id
  {
    h.sha1([Text(message), Text(time), Text(parent)] + Texts(h.values(data)))
  }

  /**
   * Neither the file names of a snapshot nor a second parent enter the id: two
   * snapshots whose blob ids come out in the same order give the same id.
   */
  lemma IdIgnoresFileNames(h: Hasher, message: string, time: string, parent: Id,
                           d1: map<string, Id>, d2: map<string, Id>)
    requires h.values(d1) == h.values(d2)
    ensures CommitId(h, message, time, parent, d1) == CommitId(h, message, time, parent, d2)
  {
  }

  /**
   * Fills the array `total` with the message, the timestamp, the parent id and
   * the blob ids, then hashes it (Commit.java:41-51 and 80-90).
   */
  method ComputeId(h: Hasher, message: string, time: string, parent: Id, data: map<string, Id>)
    returns (id: Id)
    ensures id == h.sha1([Text(message), Text(time), Text(parent)] + Texts(h.values(data)))
    ensures id == CommitId(h, message, time, parent, data)
  {
    var toSerialize := h.values(data);
    var total := new Chunk[|toSerialize| + 3](_ => Text(""));
    total[0] := Text(message);
    total[1] := Text(time);
    total[2] := Text(parent);
    for i := 0 to |toSerialize|
      invariant total[..3] == [Text(message), Text(time), Text(parent)]
      invariant forall j :: 0 <= j < i ==> total[3 + j] == Text(toSerialize[j])
    {
      total[3 + i] := Text(toSerialize[i]);
    }
    assert total[..] == [Text(message), Text(time), Text(parent)] + Texts(toSerialize);
    id := h.sha1(total[..]);
  }

  /**
   * The snapshot of an ordinary commit: the parent's files, overridden by every
   * staged entry, minus every name marked for removal.
   */
  function Snapshot(parent: map<string, Id>, index: map<string, Id>, removed: set<string>)
    : (data: map<string, Id>)
    ensures forall n :: n in data <==> (n in parent || n in index) && n !in removed
    ensures forall n :: n in data ==> data[n] == if n in index then index[n] else parent[n]
  {
    (parent + index) - removed
  }

  /** A removal mark wins over a staged entry for the same name. */
  lemma RemovalWinsOverStaging(parent: map<string, Id>, index: map<string, Id>,
                               removed: set<string>, n: string)
    requires n in index && n in removed
    ensures n !in Snapshot(parent, index, removed)
  {
  }

  /** The root commit built by `init`; it has the same id in every repository. */
  function RootCommit(h: Hasher): (c: Commit)
    ensures c.message == InitialMessage && c.time == InitialTime
    ensures c.parent == None && c.secondParent == None && c.data == map[]
    ensures c.sha == h.sha1([Text(InitialMessage), Text(InitialTime)])
  {
    Commit(InitialMessage, InitialTime, None, None, map[], h.sha1([Text(InitialMessage), Text(InitialTime)]))
  }

  /**
   * Commit(msg, parentSha): starts from the parent's map, puts every staged
   * entry, deletes every removed name one at a time, then hashes
   * (Commit.java:20-51). The second parent is null.
   */
  method NewCommit(h: Hasher, message: string, time: string, parentId: Id,
                   parentData: map<string, Id>, index: map<string, Id>, removed: set<string>)
    returns (c: Commit)
    ensures c.message == message && c.time == time
    ensures c.parent == Some(parentId) && c.secondParent == None
    ensures c.data == Snapshot(parentData, index, removed)
    ensures c.sha == CommitId(h, message, time, parentId, c.data)
  {
    var data := parentData;
    if index != map[] {
      data := data + index;
    }
    var toRemove := removed;
    while toRemove != {}
      invariant toRemove <= removed
      invariant data == (parentData + index) - (removed - toRemove)
      decreases toRemove
    {
      var name :| name in toRemove;
      if name in data {
        data := data - {name};
      }
      assert data == (parentData + index) - (removed - (toRemove - {name}));
      toRemove := toRemove - {name};
    }
    var sha := ComputeId(h, message, time, parentId, data);
    c := Commit(message, time, Some(parentId), None, data, sha);
  }

  /**
   * Commit(msg, parentSha, secondParentSha, blobfiles): a merge commit takes the
   * supplied snapshot and both parent ids as given (Commit.java:72-91).
   */
  method NewMergeCommit(h: Hasher, message: string, time: string, parentId: Id, secondId: Id,
                        blobfiles: map<string, Id>)
    returns (c: Commit)
    ensures c.message == message && c.time == time
    ensures c.parent == Some(parentId) && c.secondParent == Some(secondId)
    ensures c.data == blobfiles
    ensures c.sha == CommitId(h, message, time, parentId, blobfiles)
  {
    var sha := ComputeId(h, message, time, parentId, blobfiles);
    c := Commit(message, time, Some(parentId), Some(secondId), blobfiles, sha);
  }
}
