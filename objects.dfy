/**
 * Content-addressed objects of a Gitlet repository (Blob.java).
 *
 * A blob is the byte content of a working file together with the SHA-1 digest
 * of exactly those bytes. SHA-1 itself is not part of this model: it is the
 * uninterpreted function `sha1` of a `Hasher`, which also fixes the order in
 * which a Java HashMap hands out its values (used when commits are hashed).
 */
module Objects {

  datatype Option<+T> = None | Some(value: T)

  newtype byte = x: int | 0 <= x < 256

  type Bytes = seq<byte>

  /** Length of a full commit or blob id: 40 hexadecimal digits (Utils.UID_LENGTH). */
  const UidLength: nat := 40

  /** A full id, as produced by SHA-1 and used as a file name under .gitlet. */
  type Id = s: string | |s| == UidLength witness "0000000000000000000000000000000000000000"

  /** One argument of Utils.sha1, which accepts strings and byte arrays. */
  datatype Chunk = Text(s: string) | Raw(b: Bytes)

  /**
   * What the repository takes from its environment for hashing: SHA-1 over a list
   * of arguments, and the iteration order of the blob ids in a file-name map.
   */
  datatype Hasher = Hasher(sha1: seq<Chunk> -> Id, values: map<string, Id> -> seq<Id>)

  /** Some file name of a non-empty map. */
  ghost function AnyName(m: map<string, Id>): (n: string)
    requires m != map[]
    ensures n in m
  {
    var n :| n in m; n
  }

  /**
   * The ids a file-name map holds, each as often as the map records it: what
   * HashMap.values() lists, in whatever order (Commit.java:41).
   */
  ghost function ValueBag(m: map<string, Id>): (r: multiset<Id>)
    ensures |r| == |m|
    decreases |m|
  {
    if m == map[] then multiset{}
    else
      var n := AnyName(m);
      var rest := m - {n};
      assert rest.Keys == m.Keys - {n};
      ValueBag(rest) + multiset{m[n]}
  }

  /** An id occurs in the bag exactly when some name of the map records it. */
  lemma {:induction false} InValueBag(m: map<string, Id>, v: Id)
    ensures v in ValueBag(m) <==> v in m.Values
    decreases |m|
  {
    if m != map[] {
      var n := AnyName(m);
      var rest := m - {n};
      assert rest.Keys == m.Keys - {n};
      assert ValueBag(m) == ValueBag(rest) + multiset{m[n]};
      InValueBag(rest, v);
      if v in rest.Values {
        var k :| k in rest && rest[k] == v;
        assert m[k] == v;
      }
      if v in m.Values && v != m[n] {
        var k :| k in m && m[k] == v;
        assert k in rest;
      }
    }
  }

  /** The hasher's `values` lists exactly the ids of the map, as HashMap.values() does. */
  ghost predicate ListsValues(h: Hasher)
  {
    forall m :: multiset(h.values(m)) == ValueBag(m)
  }

  /**
   * Under `ListsValues`, the ids hashed into a commit id are one per tracked
   * file, and they are exactly the blob ids the snapshot records.
   */
  lemma ValuesListed(h: Hasher, m: map<string, Id>)
    requires ListsValues(h)
    ensures |h.values(m)| == |m|
    ensures forall v :: v in h.values(m) <==> v in m.Values
  {
    assert multiset(h.values(m)) == ValueBag(m);
    forall v ensures v in h.values(m) <==> v in m.Values {
      InValueBag(m, v);
      assert v in h.values(m) <==> v in multiset(h.values(m));
    }
  }

  /** The entry of a file-name map for `n`, if any. */
  function Lookup<V>(m: map<string, V>, n: string): Option<V>
  {
    if n in m then Some(m[n]) else None
  }

  /** Every blob id of the map can be read from the store. */
  ghost predicate Readable(m: map<string, Id>, blobs: map<Id, Bytes>)
  {
    forall n :: n in m ==> m[n] in blobs
  }

  /** The digest Blob.java records for file contents: sha1 of the bytes alone. */
  function Digest(h: Hasher, contents: Bytes): Id
  {
    h.sha1([Raw(contents)])
  }

  /** A blob: the stored contents and their digest, fixed at construction. */
  datatype Blob = Blob(contents: Bytes, hash: Id)

  /** Blob(File f): reads the file bytes and hashes them (Blob.java:15-18). */
  function NewBlob(h: Hasher, contents: Bytes): (b: Blob)
    ensures b.contents == contents
    ensures b.hash == Digest(h, contents)
    ensures StoredBlob(h, b)
  {
    Blob(contents, h.sha1([Raw(contents)]))
  }

  /** A blob is well formed when its digest is the digest of its own contents. */
  predicate StoredBlob(h: Hasher, b: Blob)
  {
    b.hash == Digest(h, b.contents)
  }

  /**
   * Blobs built from the same bytes are the same blob, and blobs with different
   * bytes differ (even if SHA-1 were to collide, the contents tell them apart).
   */
  lemma SameBytesSameBlob(h: Hasher, a: Bytes, b: Bytes)
    ensures NewBlob(h, a) == NewBlob(h, b) <==> a == b
    ensures a == b ==> NewBlob(h, a).hash == NewBlob(h, b).hash
  {
  }

  /** The blob store: every stored content sits under its own digest. */
  ghost predicate ContentAddressed(h: Hasher, blobs: map<Id, Bytes>)
  {
    forall d :: d in blobs ==> Digest(h, blobs[d]) == d
  }

  /** Storing a blob under its digest keeps the store content-addressed and only adds a key. */
  lemma PutBlobKeepsStore(h: Hasher, blobs: map<Id, Bytes>, contents: Bytes)
    requires ContentAddressed(h, blobs)
    ensures ContentAddressed(h, blobs[Digest(h, contents) := contents])
    ensures blobs[Digest(h, contents) := contents].Keys == blobs.Keys + {Digest(h, contents)}
  {
  }

  /** The bytes of an ASCII string, as Java's String.getBytes writes them. */
  function Ascii(s: string): (r: Bytes)
    ensures |r| == |s|
  {
    seq(|s|, i requires 0 <= i < |s| => (s[i] as int % 256) as byte)
  }
}
