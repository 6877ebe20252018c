/**
 * The three-way reconciliation of the merge command (Main.doMerge, the part
 * after the fast paths).
 *
 * `DecideAsWritten` is the per-file rule the code follows, stated once over
 * the split, current and other blob ids of a name; `Decide` is the rule it was
 * evidently meant to be, which differs only when the current side alone changed
 * a file. The first four loops of doMerge are modelled as they run: each works
 * on the maps `curr.data()` and `other.data()`, whose key sets are the
 * `currNames` and `otherNames` views the loops shrink. Every step touches only
 * the entry of the name it visits, so the effect of each loop is stated name by
 * name (`Slot`), and `Reconcile` proves that the loops together follow
 * `DecideAsWritten`. The fifth loop is proved never to have a name to visit.
 */
module Merge {
  import opened Objects

  /** Two maps that agree on every name are equal. */
  lemma MapsAgree<V>(a: map<string, V>, b: map<string, V>)
    requires forall n :: Lookup(a, n) == Lookup(b, n)
    ensures a == b
  {
    assert a.Keys == b.Keys by {
      forall n ensures n in a <==> n in b {
        assert Lookup(a, n) == Lookup(b, n);
      }
    }
    forall n | n in a ensures a[n] == b[n] {
      assert Lookup(a, n) == Lookup(b, n);
    }
  }

  /** Conflict markers (Main.java:690-692). */
  const Top: string := "<<<<<<< HEAD\n"
  const Middle: string := "=======\n"
  const Bottom: string := ">>>>>>>\n"

  /** The contents written for a conflicted file: markers around both versions. */
  function ConflictText(cur: Bytes, oth: Bytes): (r: Bytes)
    ensures |r| == |Top| + |cur| + |Middle| + |oth| + |Bottom|
  {
    Ascii(Top) + cur + Ascii(Middle) + oth + Ascii(Bottom)
  }

  /** Both versions can be read back from a conflict file, between the markers. */
  lemma ConflictTextParts(cur: Bytes, oth: Bytes)
    ensures var r := ConflictText(cur, oth);
            && r[..|Top|] == Ascii(Top)
            && r[|Top|..|Top| + |cur|] == cur
            && r[|Top| + |cur|..|Top| + |cur| + |Middle|] == Ascii(Middle)
            && r[|Top| + |cur| + |Middle|..|r| - |Bottom|] == oth
            && r[|r| - |Bottom|..] == Ascii(Bottom)
  {
  }

  /**
   * The length condition of `ConflictTextInjective` is needed: a current
   * version that ends in the middle marker gives the same conflict file as a
   * shorter current version with the marker moved to the other version.
   */
  lemma ConflictTextAmbiguous()
    ensures var x, y := [120 as byte], [121 as byte];
            && x + Ascii(Middle) != x
            && ConflictText(x + Ascii(Middle), y) == ConflictText(x, Ascii(Middle) + y)
  {
    var x, y := [120 as byte], [121 as byte];
    var m := Ascii(Middle);
    assert |x + m| != |x|;
    calc {
      ConflictText(x + m, y);
      Ascii(Top) + (x + m) + m + y + Ascii(Bottom);
      { assert Ascii(Top) + (x + m) + m + y == Ascii(Top) + x + m + (m + y); }
      Ascii(Top) + x + m + (m + y) + Ascii(Bottom);
      ConflictText(x, m + y);
    }
  }

  /** Conflict files whose current versions have the same length are equal only if both versions are. */
  lemma ConflictTextInjective(c1: Bytes, o1: Bytes, c2: Bytes, o2: Bytes)
    requires |c1| == |c2|
    ensures ConflictText(c1, o1) == ConflictText(c2, o2) <==> c1 == c2 && o1 == o2
  {
    if ConflictText(c1, o1) == ConflictText(c2, o2) {
      ConflictTextParts(c1, o1);
      ConflictTextParts(c2, o2);
    }
  }

  /** What the merge does with one file name. */
  datatype Verdict =
    | Keep(id: Id)              // record `id`; the working file is left alone
    | Take(id: Id)              // record other's `id` and write its contents to the working file
    | Drop(deleteFile: bool)    // record nothing; delete the working file when `deleteFile`
    | Conflict(cur: Id, oth: Id)

  /**
   * The per-file rule, from the blob ids the split point, the current head and
   * the other head hold for a name (None when the name is absent).
   * Modify/delete combinations are not conflicts: the side that still has the
   * file wins (Main.java:666-688).
   */
  function Decide(s: Option<Id>, c: Option<Id>, o: Option<Id>): Verdict
  {
    match (c, o)
    case (Some(cv), Some(ov)) =>
      if cv == ov then Keep(cv)
      else if s == Some(cv) then Take(ov)
      else if s == Some(ov) then Keep(cv)
      else Conflict(cv, ov)
    case (Some(cv), None) => if s == Some(cv) then Drop(true) else Keep(cv)
    case (None, Some(ov)) => if s == Some(ov) then Drop(false) else Take(ov)
    case (None, None) => Drop(false)
  }

  /**
   * The same rule as Main.java:633-663 writes it: when only the current side
   * changed a file, line 648 records other's id, which is the split's.
   */
  function DecideAsWritten(s: Option<Id>, c: Option<Id>, o: Option<Id>): (v: Verdict)
    ensures v != Decide(s, c, o) ==>
              c.Some? && o.Some? && o == s && v == Keep(o.value) && Decide(s, c, o) == Keep(c.value)
  {
    match (c, o)
    case (Some(cv), Some(ov)) =>
      if cv == ov then Keep(cv)
      else if s == Some(cv) then Take(ov)
      else if s == Some(ov) then Keep(ov)
      else Conflict(cv, ov)
    case (Some(cv), None) => if s == Some(cv) then Drop(true) else Keep(cv)
    case (None, Some(ov)) => if s == Some(ov) then Drop(false) else Take(ov)
    case (None, None) => Drop(false)
  }

  /** The id a non-conflicting verdict records. */
  function Chosen(v: Verdict): Option<Id>
  {
    match v
    case Keep(i) => Some(i)
    case Take(i) => Some(i)
    case Drop(_) => None
    case Conflict(_, _) => None
  }

  /**
   * The laws of a three-way merge that `Decide` keeps: a side that did not
   * change since the split yields to the other side, agreeing sides are kept,
   * and a conflict arises exactly when both sides hold the file, differ from
   * each other and both differ from the split.
   */
  lemma MergeLaws(s: Option<Id>, c: Option<Id>, o: Option<Id>)
    ensures c == o ==> Chosen(Decide(s, c, o)) == c
    ensures c == s ==> Chosen(Decide(s, c, o)) == o
    ensures o == s ==> Chosen(Decide(s, c, o)) == c
    ensures Decide(s, c, o).Conflict? <==> c.Some? && o.Some? && c != o && c != s && o != s
    ensures Decide(s, c, o).Conflict? ==> Decide(s, c, o) == Conflict(c.value, o.value)
    ensures !Decide(s, c, o).Conflict? ==> Chosen(Decide(s, c, o)) == c || Chosen(Decide(s, c, o)) == o
    ensures Decide(s, c, o).Take? ==> o == Some(Decide(s, c, o).id) && c != o
    ensures Decide(s, c, o) == Drop(true) <==> c.Some? && o.None? && s == c
  {
  }

  /**
   * As written, a file changed only on the current side loses that change:
   * the merge records the split's id while the working file keeps the current
   * contents. The corrected rule keeps the current id.
   */
  lemma AsWrittenDropsCurrentEdit(base: Id, edited: Id)
    requires base != edited
    ensures Chosen(DecideAsWritten(Some(base), Some(edited), Some(base))) == Some(base)
    ensures Chosen(Decide(Some(base), Some(edited), Some(base))) == Some(edited)
  {
  }

  /**
   * The laws the rule as written keeps: agreeing sides are kept, a current side
   * unchanged since the split yields to the other side, but when both sides
   * hold the file and the other side is unchanged, it is the other side's
   * (the split's) id that is recorded. Conflicts are as in `Decide`.
   */
  lemma AsWrittenLaws(s: Option<Id>, c: Option<Id>, o: Option<Id>)
    ensures c == o ==> Chosen(DecideAsWritten(s, c, o)) == c
    ensures c == s ==> Chosen(DecideAsWritten(s, c, o)) == o
    ensures c.Some? && o.Some? && o == s ==> Chosen(DecideAsWritten(s, c, o)) == o
    ensures DecideAsWritten(s, c, o).Conflict? <==> c.Some? && o.Some? && c != o && c != s && o != s
    ensures DecideAsWritten(s, c, o).Conflict? ==> DecideAsWritten(s, c, o) == Conflict(c.value, o.value)
    ensures !DecideAsWritten(s, c, o).Conflict? ==>
              Chosen(DecideAsWritten(s, c, o)) == c || Chosen(DecideAsWritten(s, c, o)) == o
    ensures DecideAsWritten(s, c, o).Take? ==> o == Some(DecideAsWritten(s, c, o).id) && c != o
    ensures DecideAsWritten(s, c, o) == Drop(true) <==> c.Some? && o.None? && s == c
  {
  }

  /**
   * The two rules part exactly when both sides hold the file and only the
   * current side changed it: as written the split's id is recorded, as intended
   * the current edit. Both keep the working file there, so the working tree
   * after a merge is the same under either rule.
   */
  lemma RulesDiffer(s: Option<Id>, c: Option<Id>, o: Option<Id>)
    ensures DecideAsWritten(s, c, o) != Decide(s, c, o) <==> c.Some? && o.Some? && c != o && s == o
    ensures DecideAsWritten(s, c, o) != Decide(s, c, o) ==>
              Chosen(DecideAsWritten(s, c, o)) == s && Chosen(Decide(s, c, o)) == c
    ensures DecideAsWritten(s, c, o).Keep? <==> Decide(s, c, o).Keep?
    ensures !Decide(s, c, o).Keep? ==> DecideAsWritten(s, c, o) == Decide(s, c, o)
  {
  }

  /** The id recorded for a name in the merge commit, if any. */
  function Recorded(h: Hasher, blobs: map<Id, Bytes>, v: Verdict): Option<Id>
    requires v.Conflict? ==> v.cur in blobs && v.oth in blobs
  {
    match v
    case Conflict(c, o) => Some(Digest(h, ConflictText(blobs[c], blobs[o])))
    case _ => Chosen(v)
  }

  /** The working file of a name after the merge, from the file before it. */
  function FileAfter(h: Hasher, blobs: map<Id, Bytes>, v: Verdict, w: Option<Bytes>): Option<Bytes>
    requires v.Take? ==> v.id in blobs
    requires v.Conflict? ==> v.cur in blobs && v.oth in blobs
  {
    match v
    case Keep(_) => w
    case Take(i) => Some(blobs[i])
    case Drop(d) => if d then None else w
    case Conflict(c, o) => Some(ConflictText(blobs[c], blobs[o]))
  }

  /** The verdict doMerge reaches for name `n` of the split, current and other snapshots. */
  function VerdictOf(split: map<string, Id>, curr: map<string, Id>, other: map<string, Id>, n: string): Verdict
  {
    DecideAsWritten(Lookup(split, n), Lookup(curr, n), Lookup(other, n))
  }

  /** The names whose versions conflict. */
  function Conflicts(split: map<string, Id>, curr: map<string, Id>, other: map<string, Id>): (k: set<string>)
    ensures forall n :: n in k <==> n in curr && n in other && VerdictOf(split, curr, other, n).Conflict?
  {
    set n | n in curr && n in other && VerdictOf(split, curr, other, n).Conflict?
  }

  /** The snapshot of the merge commit. */
  function MergedData(h: Hasher, blobs: map<Id, Bytes>, split: map<string, Id>,
                      curr: map<string, Id>, other: map<string, Id>): map<string, Id>
    requires Readable(curr, blobs) && Readable(other, blobs)
  {
    map n | n in curr.Keys + other.Keys && Recorded(h, blobs, VerdictOf(split, curr, other, n)).Some?
      :: Recorded(h, blobs, VerdictOf(split, curr, other, n)).value
  }

  /** The working tree after the merge. */
  function MergedWork(h: Hasher, blobs: map<Id, Bytes>, split: map<string, Id>,
                      curr: map<string, Id>, other: map<string, Id>, work: map<string, Bytes>)
    : map<string, Bytes>
    requires Readable(curr, blobs) && Readable(other, blobs)
  {
    map n | n in work.Keys + curr.Keys + other.Keys
              && FileAfter(h, blobs, VerdictOf(split, curr, other, n), Lookup(work, n)).Some?
      :: FileAfter(h, blobs, VerdictOf(split, curr, other, n), Lookup(work, n)).value
  }

  // ---------------------------------------------------------------------------
  // The loops of doMerge, name by name.

  /**
   * The local state of doMerge: `newContents`, the maps `curr.data()` and
   * `other.data()` (whose key sets are `currNames` and `otherNames`), and the
   * working tree.
   */
  datatype Progress = Progress(
    newContents: map<string, Id>,
    curr: map<string, Id>,
    other: map<string, Id>,
    work: map<string, Bytes>)

  /** What the local state holds for one name. */
  datatype Slot = Slot(recorded: Option<Id>, cur: Option<Id>, oth: Option<Id>, file: Option<Bytes>)

  function SlotOf(p: Progress, n: string): Slot
  {
    Slot(Lookup(p.newContents, n), Lookup(p.curr, n), Lookup(p.other, n), Lookup(p.work, n))
  }

  ghost predicate ReadableSlot(sl: Slot, blobs: map<Id, Bytes>)
  {
    && (sl.cur.Some? ==> sl.cur.value in blobs)
    && (sl.oth.Some? ==> sl.oth.value in blobs)
  }

  /** First loop, for a name of the split snapshot with id `s` (Main.java:632-663). */
  function SplitStep(s: Id, blobs: map<Id, Bytes>, sl: Slot): (r: Slot)
    requires ReadableSlot(sl, blobs)
    ensures ReadableSlot(r, blobs)
  {
    match (sl.cur, sl.oth)
    case (Some(c), Some(o)) =>
      if c == o then sl.(recorded := Some(c), cur := None, oth := None)
      else if c == s then sl.(recorded := Some(o), cur := None, oth := None, file := Some(blobs[o]))
      else if o == s then sl.(recorded := Some(o), cur := None, oth := None)
      else sl
    case (Some(c), None) => if c == s then sl.(cur := None, file := None) else sl
    case (None, Some(o)) => if o == s then sl.(oth := None) else sl
    case (None, None) => sl
  }

  /** Second loop, over the names left in `currNames` (Main.java:666-677). */
  function CurrentStep(sl: Slot): (r: Slot)
  {
    match (sl.cur, sl.oth)
    case (Some(c), None) => sl.(recorded := Some(c), cur := None)
    case (Some(c), Some(o)) => if c == o then sl.(recorded := Some(c), cur := None, oth := None) else sl
    case (None, _) => sl
  }

  lemma CurrentStepReadable(sl: Slot, blobs: map<Id, Bytes>)
    requires ReadableSlot(sl, blobs)
    ensures ReadableSlot(CurrentStep(sl), blobs)
  {
  }

  /** Third loop, over the names left in `otherNames` (Main.java:679-688). */
  function OtherStep(blobs: map<Id, Bytes>, sl: Slot): (r: Slot)
    requires ReadableSlot(sl, blobs)
    ensures ReadableSlot(r, blobs)
  {
    match (sl.cur, sl.oth)
    case (None, Some(o)) => sl.(recorded := Some(o), oth := None, file := Some(blobs[o]))
    case (_, _) => sl
  }

  /** The contents a conflicted name gets, by the fourth loop (Main.java:695-717). */
  function ConflictBytes(blobs: map<Id, Bytes>, sl: Slot): Bytes
    requires ReadableSlot(sl, blobs) && sl.cur.Some?
  {
    ConflictText(blobs[sl.cur.value], if sl.oth.Some? then blobs[sl.oth.value] else [])
  }

  /** Fourth loop, over the names still in `currNames` (Main.java:695-717). */
  function ConflictStep(h: Hasher, blobs: map<Id, Bytes>, sl: Slot): (r: Slot)
    requires ReadableSlot(sl, blobs)
  {
    match sl.cur
    case Some(c) =>
      var text := ConflictBytes(blobs, sl);
      sl.(recorded := Some(Digest(h, text)), oth := None, file := Some(text))
    case None => sl
  }

  ghost predicate ReadableProgress(p: Progress, blobs: map<Id, Bytes>)
  {
    Readable(p.curr, blobs) && Readable(p.other, blobs)
  }

  lemma ReadableSlots(p: Progress, blobs: map<Id, Bytes>)
    requires ReadableProgress(p, blobs)
    ensures forall n :: ReadableSlot(SlotOf(p, n), blobs)
  {
  }

  lemma SlotsReadable(p: Progress, blobs: map<Id, Bytes>)
    requires forall n :: ReadableSlot(SlotOf(p, n), blobs)
    ensures ReadableProgress(p, blobs)
  {
    forall n | n in p.curr ensures p.curr[n] in blobs {
      assert ReadableSlot(SlotOf(p, n), blobs);
    }
    forall n | n in p.other ensures p.other[n] in blobs {
      assert ReadableSlot(SlotOf(p, n), blobs);
    }
  }

  lemma FramePut<V>(m: map<string, V>, k: string, v: V)
    ensures Lookup(m[k := v], k) == Some(v)
    ensures forall n :: n != k ==> Lookup(m[k := v], n) == Lookup(m, n)
  {
  }

  lemma FrameRemove<V>(m: map<string, V>, k: string)
    ensures Lookup(m - {k}, k) == None
    ensures forall n :: n != k ==> Lookup(m - {k}, n) == Lookup(m, n)
  {
  }

  lemma FrameRemoveAll<V>(m: map<string, V>, ks: set<string>, n: string)
    ensures Lookup(m - ks, n) == if n in ks then None else Lookup(m, n)
  {
  }

  /** The first four loops of doMerge; the fifth never has a name to visit. */
  datatype Loop = SplitLoop(split: map<string, Id>) | CurrentLoop | OtherLoop | ConflictLoop(h: Hasher)

  /** What a loop does to the slot of name `n`; a name the loop does not visit keeps its slot. */
  function Apply(loop: Loop, blobs: map<Id, Bytes>, n: string, sl: Slot): Slot
    requires loop.CurrentLoop? || ReadableSlot(sl, blobs)
  {
    match loop
    case SplitLoop(split) => if n in split then SplitStep(split[n], blobs, sl) else sl
    case CurrentLoop => CurrentStep(sl)
    case OtherLoop => OtherStep(blobs, sl)
    case ConflictLoop(h) => ConflictStep(h, blobs, sl)
  }

  /** Starting from `p`, the loop has visited exactly the names in `done`, giving `q`. */
  ghost predicate Applied(loop: Loop, blobs: map<Id, Bytes>, p: Progress, q: Progress, done: set<string>)
    requires loop.CurrentLoop? || ReadableProgress(p, blobs)
  {
    forall n :: (SlotOf(q, n) == if n in done then Apply(loop, blobs, n, SlotOf(p, n)) else SlotOf(p, n))
  }

  /** A name not yet visited still has its slot from before the loop. */
  lemma NotYetVisited(loop: Loop, blobs: map<Id, Bytes>, p: Progress, q: Progress, done: set<string>, name: string)
    requires loop.CurrentLoop? || ReadableProgress(p, blobs)
    requires Applied(loop, blobs, p, q, done) && name !in done
    ensures SlotOf(q, name) == SlotOf(p, name)
    ensures Lookup(q.curr, name) == Lookup(p.curr, name) && Lookup(q.other, name) == Lookup(p.other, name)
  {
  }

  /** Visiting one more name, touching only its entries, extends the visited set by that name. */
  lemma Advance(loop: Loop, blobs: map<Id, Bytes>, p: Progress, q: Progress, q': Progress, done: set<string>, name: string)
    requires loop.CurrentLoop? || ReadableProgress(p, blobs)
    requires Applied(loop, blobs, p, q, done) && name !in done
    requires loop.CurrentLoop? || ReadableSlot(SlotOf(p, name), blobs)
    requires SlotOf(q', name) == Apply(loop, blobs, name, SlotOf(p, name))
    requires forall n :: n != name ==> SlotOf(q', n) == SlotOf(q, n)
    ensures Applied(loop, blobs, p, q', done + {name})
  {
  }

  /** When every name a loop acts on was visited, every slot is the loop's step of its old slot. */
  lemma Finished(loop: Loop, blobs: map<Id, Bytes>, p: Progress, q: Progress, done: set<string>)
    requires loop.CurrentLoop? || ReadableProgress(p, blobs)
    requires Applied(loop, blobs, p, q, done)
    requires loop.SplitLoop? ==> done == loop.split.Keys
    requires loop.CurrentLoop? || loop.ConflictLoop? ==> done == p.curr.Keys
    requires loop.OtherLoop? ==> done == p.other.Keys
    ensures forall n :: SlotOf(q, n) == Apply(loop, blobs, n, SlotOf(p, n))
  {
    forall n ensures SlotOf(q, n) == Apply(loop, blobs, n, SlotOf(p, n)) {
      if n !in done {
        Unvisited(loop, blobs, p, n);
      }
    }
  }

  /** A loop leaves alone every name outside the map it walks. */
  lemma Unvisited(loop: Loop, blobs: map<Id, Bytes>, p: Progress, n: string)
    requires loop.CurrentLoop? || ReadableProgress(p, blobs)
    requires loop.SplitLoop? ==> n !in loop.split
    requires loop.CurrentLoop? || loop.ConflictLoop? ==> n !in p.curr
    requires loop.OtherLoop? ==> n !in p.other
    ensures Apply(loop, blobs, n, SlotOf(p, n)) == SlotOf(p, n)
  {
  }

  /** The body of the first loop of doMerge for one name of the split snapshot. */
  method VisitSplit(split: map<string, Id>, blobs: map<Id, Bytes>, q: Progress, name: string) returns (q': Progress)
    requires name in split && ReadableSlot(SlotOf(q, name), blobs)
    ensures SlotOf(q', name) == SplitStep(split[name], blobs, SlotOf(q, name))
    ensures forall n :: n != name ==> SlotOf(q', n) == SlotOf(q, n)
  {
    q' := q;
    if name in q.curr && name in q.other {
      if q.curr[name] == q.other[name] {
        q' := q.(newContents := q.newContents[name := q.curr[name]],
                 curr := q.curr - {name}, other := q.other - {name});
      } else if q.curr[name] == split[name] {
        q' := q.(work := q.work[name := blobs[q.other[name]]],
                 newContents := q.newContents[name := q.other[name]],
                 curr := q.curr - {name}, other := q.other - {name});
      } else if q.other[name] == split[name] {
        q' := q.(newContents := q.newContents[name := q.other[name]],
                 curr := q.curr - {name}, other := q.other - {name});
      }
    } else if name in q.curr {
      if q.curr[name] == split[name] {
        q' := q.(work := q.work - {name}, curr := q.curr - {name});
      }
    } else if name in q.other {
      if q.other[name] == split[name] {
        q' := q.(other := q.other - {name});
      }
    }
  }

  /** The first loop of doMerge, over the split point's file names. */
  method SplitPass(split: map<string, Id>, blobs: map<Id, Bytes>, p: Progress) returns (q: Progress)
    requires ReadableProgress(p, blobs)
    ensures forall n :: SlotOf(q, n) == Apply(SplitLoop(split), blobs, n, SlotOf(p, n))
  {
    ReadableSlots(p, blobs);
    q := p;
    var splitNames := split.Keys;
    ghost var done: set<string> := {};
    while splitNames != {}
      invariant done !! splitNames && done + splitNames == split.Keys
      invariant Applied(SplitLoop(split), blobs, p, q, done)
      decreases splitNames
    {
      var name :| name in splitNames;
      NotYetVisited(SplitLoop(split), blobs, p, q, done, name);
      ghost var q0 := q;
      q := VisitSplit(split, blobs, q, name);
      Advance(SplitLoop(split), blobs, p, q0, q, done, name);
      done := done + {name};
      splitNames := splitNames - {name};
    }
    Finished(SplitLoop(split), blobs, p, q, done);
  }

  /**
   * The body of the second loop of doMerge for one name of `currNames`. The
   * state `q` holds the maps as the Java code has them; `toRemove1` collects
   * the names to drop from `currNames` once the loop is over.
   */
  method VisitCurrent(q: Progress, toRemove1: set<string>, name: string)
    returns (q': Progress, toRemove1': set<string>)
    requires name in q.curr && name !in toRemove1
    ensures var before := q.(curr := q.curr - toRemove1);
            var after := q'.(curr := q'.curr - toRemove1');
            && SlotOf(after, name) == CurrentStep(SlotOf(before, name))
            && (forall n :: n != name ==> SlotOf(after, n) == SlotOf(before, n))
            && toRemove1 <= toRemove1' <= toRemove1 + {name}
            && (forall n :: n != name ==> Lookup(q'.curr, n) == Lookup(q.curr, n))
  {
    q', toRemove1' := q, toRemove1;
    if name !in q.other {
      toRemove1' := toRemove1 + {name};
      q' := q.(newContents := q.newContents[name := q.curr[name]]);
    } else if q.curr[name] == q.other[name] {
      q' := q.(newContents := q.newContents[name := q.curr[name]],
               curr := q.curr - {name}, other := q.other - {name});
    }
    forall n ensures Lookup(q'.curr - toRemove1', n) == if n == name then CurrentStep(SlotOf(q.(curr := q.curr - toRemove1), name)).cur else Lookup(q.curr - toRemove1, n) {
      FrameRemoveAll(q'.curr, toRemove1', n);
      FrameRemoveAll(q.curr, toRemove1, n);
    }
  }

  /**
   * The second loop of doMerge, over `currNames`. Names whose other side is
   * gone are collected in `toRemove1` and dropped from `currNames` after the
   * loop.
   */
  method CurrentPass(p: Progress) returns (q: Progress)
    ensures forall n :: SlotOf(q, n) == CurrentStep(SlotOf(p, n))
  {
    q := p;
    var currNames := p.curr.Keys;
    var toRemove1: set<string> := {};
    ghost var done: set<string> := {};
    while currNames != {}
      invariant done !! currNames && done + currNames == p.curr.Keys
      invariant toRemove1 <= done
      invariant forall n :: n in currNames ==> Lookup(q.curr, n) == Lookup(p.curr, n)
      invariant Applied(CurrentLoop, map[], p, q.(curr := q.curr - toRemove1), done)
      decreases currNames
    {
      var name :| name in currNames;
      ghost var v0 := q.(curr := q.curr - toRemove1);
      NotYetVisited(CurrentLoop, map[], p, v0, done, name);
      q, toRemove1 := VisitCurrent(q, toRemove1, name);
      Advance(CurrentLoop, map[], p, v0, q.(curr := q.curr - toRemove1), done, name);
      done := done + {name};
      currNames := currNames - {name};
    }
    Finished(CurrentLoop, map[], p, q.(curr := q.curr - toRemove1), done);
    q := q.(curr := q.curr - toRemove1);
  }

  /**
   * The body of the third loop of doMerge for one name of `otherNames`: a name
   * the current side no longer holds is checked out from the other head and
   * recorded, and collected in `toRemove2` to be dropped from `otherNames`
   * once the loop is over.
   */
  method VisitOther(blobs: map<Id, Bytes>, q: Progress, toRemove2: set<string>, name: string)
    returns (q': Progress, toRemove2': set<string>)
    requires name in q.other && name !in toRemove2
    requires ReadableSlot(SlotOf(q.(other := q.other - toRemove2), name), blobs)
    ensures var before := q.(other := q.other - toRemove2);
            var after := q'.(other := q'.other - toRemove2');
            && ReadableSlot(SlotOf(before, name), blobs)
            && SlotOf(after, name) == OtherStep(blobs, SlotOf(before, name))
            && (forall n :: n != name ==> SlotOf(after, n) == SlotOf(before, n))
            && toRemove2 <= toRemove2' <= toRemove2 + {name}
            && q'.curr == q.curr && q'.other == q.other
  {
    q', toRemove2' := q, toRemove2;
    if name !in q.curr {
      q' := q.(work := q.work[name := blobs[q.other[name]]],
               newContents := q.newContents[name := q.other[name]]);
      toRemove2' := toRemove2 + {name};
    }
    FrameRemoveAll(q.other, toRemove2, name);
    forall n ensures Lookup(q'.other - toRemove2', n) ==
      if n == name then OtherStep(blobs, SlotOf(q.(other := q.other - toRemove2), name)).oth
      else Lookup(q.other - toRemove2, n)
    {
      FrameRemoveAll(q'.other, toRemove2', n);
      FrameRemoveAll(q.other, toRemove2, n);
    }
  }

  /** The third loop of doMerge, over `otherNames`. */
  method OtherPass(blobs: map<Id, Bytes>, p: Progress) returns (q: Progress)
    requires ReadableProgress(p, blobs)
    ensures forall n :: SlotOf(q, n) == OtherStep(blobs, SlotOf(p, n))
  {
    ReadableSlots(p, blobs);
    q := p;
    var otherNames := p.other.Keys;
    var toRemove2: set<string> := {};
    ghost var done: set<string> := {};
    while otherNames != {}
      invariant done !! otherNames && done + otherNames == p.other.Keys
      invariant toRemove2 <= done
      invariant q.curr == p.curr && q.other == p.other
      invariant Applied(OtherLoop, blobs, p, q.(other := q.other - toRemove2), done)
      decreases otherNames
    {
      var name :| name in otherNames;
      ghost var v0 := q.(other := q.other - toRemove2);
      NotYetVisited(OtherLoop, blobs, p, v0, done, name);
      q, toRemove2 := VisitOther(blobs, q, toRemove2, name);
      Advance(OtherLoop, blobs, p, v0, q.(other := q.other - toRemove2), done, name);
      done := done + {name};
      otherNames := otherNames - {name};
    }
    Finished(OtherLoop, blobs, p, q.(other := q.other - toRemove2), done);
    q := q.(other := q.other - toRemove2);
  }

  /** The digests of the conflict files of the names in `names`. */
  ghost function ConflictDigests(h: Hasher, blobs: map<Id, Bytes>, p: Progress, names: set<string>): set<Id>
    requires ReadableProgress(p, blobs) && names <= p.curr.Keys
  {
    ReadableSlots(p, blobs);
    set n | n in names :: Digest(h, ConflictBytes(blobs, SlotOf(p, n)))
  }

  /** Storing the conflict blob of one more name keeps the store content-addressed. */
  lemma StoreConflictBlob(h: Hasher, blobs: map<Id, Bytes>, p: Progress, names: set<string>, name: string,
                          store: map<Id, Bytes>, text: Bytes)
    requires ReadableProgress(p, blobs) && names <= p.curr.Keys && name in p.curr
    requires ContentAddressed(h, store)
    requires store.Keys == blobs.Keys + ConflictDigests(h, blobs, p, names)
    requires ReadableSlot(SlotOf(p, name), blobs) && text == ConflictBytes(blobs, SlotOf(p, name))
    ensures ContentAddressed(h, store[Digest(h, text) := text])
    ensures store[Digest(h, text) := text].Keys == blobs.Keys + ConflictDigests(h, blobs, p, names + {name})
  {
    ReadableSlots(p, blobs);
    PutBlobKeepsStore(h, store, text);
    assert ConflictDigests(h, blobs, p, names + {name}) == ConflictDigests(h, blobs, p, names) + {Digest(h, text)};
  }

  /**
   * The bytes of the store while the conflict loop runs: a blob that is no
   * conflict file keeps its bytes, and a conflict digest holds the conflict
   * file of one of the names visited.
   */
  ghost predicate HoldsConflictFiles(h: Hasher, blobs: map<Id, Bytes>, p: Progress, names: set<string>,
                                     store: map<Id, Bytes>)
    requires ReadableProgress(p, blobs) && names <= p.curr.Keys
  {
    && (forall d :: d in blobs && d !in ConflictDigests(h, blobs, p, names) ==> d in store && store[d] == blobs[d])
    && (forall d :: d in ConflictDigests(h, blobs, p, names) ==>
          d in store && exists n :: n in names && store[d] == ConflictBytes(blobs, SlotOf(p, n)))
  }

  /**
   * The same facts with a witness, for conflict files `files` of the names
   * visited: `owner` names, for each conflict digest stored so far, the name
   * whose file it holds.
   */
  ghost predicate Owned(h: Hasher, files: map<string, Bytes>, names: set<string>, blobs: map<Id, Bytes>,
                        store: map<Id, Bytes>, owner: map<Id, string>)
  {
    && names <= files.Keys
    && (forall n {:trigger Digest(h, files[n])} :: n in names ==> Digest(h, files[n]) in owner)
    && (forall d :: d in owner ==> owner[d] in names && owner[d] in files && d in store && store[d] == files[owner[d]])
    && (forall d :: d in blobs && d !in owner ==> d in store && store[d] == blobs[d])
  }

  /** Storing the file of one more name keeps the other blobs' bytes. */
  lemma StoreConflictBytes(h: Hasher, files: map<string, Bytes>, names: set<string>, name: string,
                           blobs: map<Id, Bytes>, store: map<Id, Bytes>, owner: map<Id, string>)
    requires Owned(h, files, names, blobs, store, owner) && name in files
    ensures Owned(h, files, names + {name}, blobs, store[Digest(h, files[name]) := files[name]],
                  owner[Digest(h, files[name]) := name])
  {
    var digest := Digest(h, files[name]);
    var store', owner' := store[digest := files[name]], owner[digest := name];
    forall n {:trigger Digest(h, files[n])} | n in names + {name} ensures Digest(h, files[n]) in owner' {
      if n != name {
        assert Digest(h, files[n]) in owner;
      }
    }
    forall d | d in owner'
      ensures owner'[d] in names + {name} && owner'[d] in files && d in store' && store'[d] == files[owner'[d]]
    {
      if d != digest {
        assert d in owner && owner'[d] == owner[d] && store'[d] == store[d];
      }
    }
  }

  /** The conflict file the fourth loop writes for each name of `currNames`. */
  ghost function ConflictFiles(blobs: map<Id, Bytes>, p: Progress): (r: map<string, Bytes>)
    requires ReadableProgress(p, blobs)
    ensures r.Keys == p.curr.Keys
    ensures forall n :: n in r ==> ReadableSlot(SlotOf(p, n), blobs) && r[n] == ConflictBytes(blobs, SlotOf(p, n))
  {
    ReadableSlots(p, blobs);
    map n | n in p.curr :: ConflictBytes(blobs, SlotOf(p, n))
  }

  /** A content-addressed store with an owner for every conflict digest holds the conflict files. */
  lemma OwnedFiles(h: Hasher, blobs: map<Id, Bytes>, p: Progress, names: set<string>, files: map<string, Bytes>,
                   store: map<Id, Bytes>, owner: map<Id, string>)
    requires ReadableProgress(p, blobs) && names <= p.curr.Keys
    requires forall n :: n in names ==> ReadableSlot(SlotOf(p, n), blobs) && n in files
                                        && files[n] == ConflictBytes(blobs, SlotOf(p, n))
    requires ContentAddressed(h, store) && Owned(h, files, names, blobs, store, owner)
    ensures HoldsConflictFiles(h, blobs, p, names, store)
  {
    ReadableSlots(p, blobs);
    forall d | d in owner ensures d in ConflictDigests(h, blobs, p, names) {
      assert d == Digest(h, store[d]);
    }
    forall d | d in ConflictDigests(h, blobs, p, names)
      ensures d in store && exists n :: n in names && store[d] == ConflictBytes(blobs, SlotOf(p, n))
    {
      var n :| n in names && d == Digest(h, ConflictBytes(blobs, SlotOf(p, n)));
      assert d in owner;
    }
  }

  /**
   * The body of the fourth loop of doMerge for one name of `currNames`: writes
   * the conflict file, stores it as a blob and records that blob. The contents
   * are read from `blobs`, the store as it was before the loop.
   */
  method VisitConflict(h: Hasher, blobs: map<Id, Bytes>, q: Progress, store: map<Id, Bytes>, name: string)
    returns (q': Progress, store': map<Id, Bytes>)
    requires name in q.curr && ReadableSlot(SlotOf(q, name), blobs)
    ensures SlotOf(q', name) == ConflictStep(h, blobs, SlotOf(q, name))
    ensures forall n :: n != name ==> SlotOf(q', n) == SlotOf(q, n)
    ensures q'.curr == q.curr
    ensures var text := ConflictBytes(blobs, SlotOf(q, name)); store' == store[Digest(h, text) := text]
  {
    q' := q;
    var currContents := blobs[q.curr[name]];
    var otherContents: Bytes := [];
    if name in q.other {
      otherContents := blobs[q.other[name]];
      q' := q'.(other := q'.other - {name});
    }
    var text := ConflictText(currContents, otherContents);
    q' := q'.(work := q'.work[name := text]);
    var merged := NewBlob(h, text);
    store' := store[merged.hash := merged.contents];
    q' := q'.(newContents := q'.newContents[name := merged.hash]);
  }

  /** What the fourth loop keeps after visiting the names `done`. */
  ghost predicate ConflictKept(h: Hasher, blobs: map<Id, Bytes>, p: Progress, q: Progress, store: map<Id, Bytes>,
                               done: set<string>, files: map<string, Bytes>, owner: map<Id, string>)
  {
    && ReadableProgress(p, blobs) && done <= p.curr.Keys
    && q.curr == p.curr && Applied(ConflictLoop(h), blobs, p, q, done)
    && ContentAddressed(h, store) && store.Keys == blobs.Keys + ConflictDigests(h, blobs, p, done)
    && Owned(h, files, done, blobs, store, owner)
  }

  /** One turn of the fourth loop, with the facts the loop keeps. */
  method VisitConflictOwned(h: Hasher, blobs: map<Id, Bytes>, p: Progress, q: Progress, store: map<Id, Bytes>,
                            ghost done: set<string>, ghost files: map<string, Bytes>, ghost owner: map<Id, string>,
                            name: string)
    returns (q': Progress, store': map<Id, Bytes>, ghost owner': map<Id, string>)
    requires ConflictKept(h, blobs, p, q, store, done, files, owner) && name in p.curr && name !in done
    requires files == ConflictFiles(blobs, p)
    ensures ConflictKept(h, blobs, p, q', store', done + {name}, files, owner')
  {
    NotYetVisited(ConflictLoop(h), blobs, p, q, done, name);
    ghost var text := files[name];
    StoreConflictBlob(h, blobs, p, done, name, store, text);
    StoreConflictBytes(h, files, done, name, blobs, store, owner);
    owner' := owner[Digest(h, text) := name];
    q', store' := VisitConflict(h, blobs, q, store, name);
    assert store' == store[Digest(h, text) := text];
    Advance(ConflictLoop(h), blobs, p, q, q', done, name);
  }

  /**
   * The fourth loop of doMerge: every name still in `currNames` gets a
   * conflict file, stored as a new blob and recorded.
   */
  method ConflictPass(h: Hasher, blobs: map<Id, Bytes>, p: Progress) returns (q: Progress, store: map<Id, Bytes>)
    requires ReadableProgress(p, blobs) && ContentAddressed(h, blobs)
    ensures forall n :: SlotOf(q, n) == ConflictStep(h, blobs, SlotOf(p, n))
    ensures ContentAddressed(h, store)
    ensures store.Keys == blobs.Keys + ConflictDigests(h, blobs, p, p.curr.Keys)
    ensures HoldsConflictFiles(h, blobs, p, p.curr.Keys, store)
  {
    ghost var files := ConflictFiles(blobs, p);
    ghost var owner;
    q, store, owner := WriteConflicts(h, blobs, p, files);
    Finished(ConflictLoop(h), blobs, p, q, p.curr.Keys);
    OwnedFiles(h, blobs, p, p.curr.Keys, files, store, owner);
  }

  /** The loop of `ConflictPass`, with the owner of every digest it stores. */
  method WriteConflicts(h: Hasher, blobs: map<Id, Bytes>, p: Progress, ghost files: map<string, Bytes>)
    returns (q: Progress, store: map<Id, Bytes>, ghost owner: map<Id, string>)
    requires ReadableProgress(p, blobs) && ContentAddressed(h, blobs) && files == ConflictFiles(blobs, p)
    ensures ConflictKept(h, blobs, p, q, store, p.curr.Keys, files, owner)
  {
    ReadableSlots(p, blobs);
    q := p;
    store := blobs;
    var currNames := p.curr.Keys;
    ghost var done: set<string> := {};
    owner := map[];
    while currNames != {}
      invariant currNames == p.curr.Keys - done
      invariant ConflictKept(h, blobs, p, q, store, done, files, owner)
      decreases currNames
    {
      var name :| name in currNames;
      q, store, owner := VisitConflictOwned(h, blobs, p, q, store, done, files, owner, name);
      TakeName(p.curr.Keys, done, currNames, name);
      done := done + {name};
      currNames := currNames - {name};
    }
    AllTaken(p.curr.Keys, done);
  }

  /** Moving one name from the names left to the names visited. */
  lemma TakeName(all: set<string>, done: set<string>, rest: set<string>, name: string)
    requires done <= all && rest == all - done && name in rest
    ensures done + {name} <= all && rest - {name} == all - (done + {name})
  {
  }

  /** No name left: every name was visited. */
  lemma AllTaken(all: set<string>, done: set<string>)
    requires done <= all && all - done == {}
    ensures done == all
  {
    forall n | n in all ensures n in done {
      assert n !in all - done;
    }
  }

  /** The first three loops applied to one name. */
  function Early(blobs: map<Id, Bytes>, s: Option<Id>, sl: Slot): (r: Slot)
    requires ReadableSlot(sl, blobs)
    ensures ReadableSlot(r, blobs)
  {
    OtherStep(blobs, CurrentStep(if s.Some? then SplitStep(s.value, blobs, sl) else sl))
  }

  /** The first four loops applied to one name. */
  function Passes(h: Hasher, blobs: map<Id, Bytes>, s: Option<Id>, sl: Slot): Slot
    requires ReadableSlot(sl, blobs)
  {
    ConflictStep(h, blobs, Early(blobs, s, sl))
  }

  /**
   * The loops follow `DecideAsWritten` for every name: they record the verdict's id,
   * leave the working file as the verdict says, and the names left for the
   * conflict loop are exactly the conflicting ones, with both versions still
   * in place. After the third loop every name left in `otherNames` is also in
   * `currNames`, so the last loop of doMerge (Main.java:719-732) never runs.
   */
  lemma PassesFollowRule(h: Hasher, blobs: map<Id, Bytes>, s: Option<Id>, c: Option<Id>, o: Option<Id>, w: Option<Bytes>)
    requires c.Some? ==> c.value in blobs
    requires o.Some? ==> o.value in blobs
    ensures var v := DecideAsWritten(s, c, o);
            var early := Early(blobs, s, Slot(None, c, o, w));
            && (early.oth.Some? ==> early.cur.Some?)
            && (early.cur.Some? <==> v.Conflict?)
            && (v.Conflict? ==> early.cur == c && early.oth == o)
            && Passes(h, blobs, s, Slot(None, c, o, w)).recorded == Recorded(h, blobs, v)
            && Passes(h, blobs, s, Slot(None, c, o, w)).file == FileAfter(h, blobs, v, w)
  {
  }

  /** The slot of every name before the first loop. */
  function Start(curr: map<string, Id>, other: map<string, Id>, work: map<string, Bytes>): Progress
  {
    Progress(map[], curr, other, work)
  }

  /** For one name, the slot after all loops gives the merged snapshot entry and working file. */
  lemma MergedAt(h: Hasher, blobs: map<Id, Bytes>, split: map<string, Id>,
                 curr: map<string, Id>, other: map<string, Id>, work: map<string, Bytes>, n: string, sl: Slot)
    requires Readable(curr, blobs) && Readable(other, blobs)
    requires ReadableSlot(SlotOf(Start(curr, other, work), n), blobs)
    requires sl == Passes(h, blobs, Lookup(split, n), SlotOf(Start(curr, other, work), n))
    ensures sl.recorded == Lookup(MergedData(h, blobs, split, curr, other), n)
    ensures sl.file == Lookup(MergedWork(h, blobs, split, curr, other, work), n)
  {
    PassesFollowRule(h, blobs, Lookup(split, n), Lookup(curr, n), Lookup(other, n), Lookup(work, n));
  }

  /** When every name went through the first four loops, the results are the merged snapshot and working tree. */
  lemma MergedFromSlots(h: Hasher, blobs: map<Id, Bytes>, split: map<string, Id>,
                        curr: map<string, Id>, other: map<string, Id>, work: map<string, Bytes>, q: Progress)
    requires Readable(curr, blobs) && Readable(other, blobs)
    requires forall n :: ReadableSlot(SlotOf(Start(curr, other, work), n), blobs)
    requires forall n :: SlotOf(q, n) == Passes(h, blobs, Lookup(split, n), SlotOf(Start(curr, other, work), n))
    ensures q.newContents == MergedData(h, blobs, split, curr, other)
    ensures q.work == MergedWork(h, blobs, split, curr, other, work)
  {
    forall n
      ensures Lookup(q.newContents, n) == Lookup(MergedData(h, blobs, split, curr, other), n)
      ensures Lookup(q.work, n) == Lookup(MergedWork(h, blobs, split, curr, other, work), n)
    {
      MergedAt(h, blobs, split, curr, other, work, n, SlotOf(q, n));
    }
    MapsAgree(q.newContents, MergedData(h, blobs, split, curr, other));
    MapsAgree(q.work, MergedWork(h, blobs, split, curr, other, work));
  }

  /** The digests of the conflict files of a merge. */
  ghost function ConflictBlobIds(h: Hasher, blobs: map<Id, Bytes>, split: map<string, Id>,
                                 curr: map<string, Id>, other: map<string, Id>): set<Id>
    requires Readable(curr, blobs) && Readable(other, blobs)
  {
    set n | n in Conflicts(split, curr, other) :: Recorded(h, blobs, VerdictOf(split, curr, other, n)).value
  }

  /**
   * The blob store a merge leaves: content-addressed, the old blobs plus the
   * conflict files, every blob that is no conflict file keeping its bytes, and
   * every conflict digest holding the conflict file of a conflicting name.
   */
  ghost predicate MergedStore(h: Hasher, blobs: map<Id, Bytes>, split: map<string, Id>,
                              curr: map<string, Id>, other: map<string, Id>, store: map<Id, Bytes>)
    requires Readable(curr, blobs) && Readable(other, blobs)
  {
    && ContentAddressed(h, store)
    && store.Keys == blobs.Keys + ConflictBlobIds(h, blobs, split, curr, other)
    && (forall d :: d in blobs && d !in ConflictBlobIds(h, blobs, split, curr, other) ==> store[d] == blobs[d])
    && (forall d :: d in ConflictBlobIds(h, blobs, split, curr, other) ==>
          exists n :: n in Conflicts(split, curr, other) && store[d] == ConflictText(blobs[curr[n]], blobs[other[n]]))
  }

  /**
   * Every id in the merged snapshot names a blob already stored or one of the
   * conflict blobs, so the store the merge leaves can read the snapshot.
   */
  lemma MergedStored(h: Hasher, blobs: map<Id, Bytes>, split: map<string, Id>,
                     curr: map<string, Id>, other: map<string, Id>, store: map<Id, Bytes>)
    requires Readable(curr, blobs) && Readable(other, blobs)
    requires store.Keys == blobs.Keys + ConflictBlobIds(h, blobs, split, curr, other)
    ensures Readable(MergedData(h, blobs, split, curr, other), store)
  {
    var data := MergedData(h, blobs, split, curr, other);
    forall n | n in data
      ensures data[n] in blobs.Keys + ConflictBlobIds(h, blobs, split, curr, other)
    {
      AsWrittenLaws(Lookup(split, n), Lookup(curr, n), Lookup(other, n));
      if VerdictOf(split, curr, other, n).Conflict? {
        assert n in Conflicts(split, curr, other);
      }
    }
  }

  /** The conflict file built from slot `sl` is the blob recorded for verdict `v`. */
  ghost predicate RecordsConflict(h: Hasher, blobs: map<Id, Bytes>, v: Verdict, sl: Slot)
  {
    && ReadableSlot(sl, blobs) && sl.cur.Some?
    && (v.Conflict? ==> v.cur in blobs && v.oth in blobs)
    && Recorded(h, blobs, v).Some?
    && Digest(h, ConflictBytes(blobs, sl)) == Recorded(h, blobs, v).value
  }

  /** For one name, the slot after the first three loops tells whether the name conflicts. */
  lemma ConflictAt(h: Hasher, blobs: map<Id, Bytes>, split: map<string, Id>,
                   curr: map<string, Id>, other: map<string, Id>, work: map<string, Bytes>, n: string, sl: Slot)
    requires Readable(curr, blobs) && Readable(other, blobs)
    requires ReadableSlot(SlotOf(Start(curr, other, work), n), blobs)
    requires sl == Early(blobs, Lookup(split, n), SlotOf(Start(curr, other, work), n))
    ensures sl.cur.Some? <==> n in Conflicts(split, curr, other)
    ensures sl.oth.Some? ==> sl.cur.Some?
    ensures ReadableSlot(sl, blobs)
    ensures sl.cur.Some? ==> RecordsConflict(h, blobs, VerdictOf(split, curr, other, n), sl)
  {
    PassesFollowRule(h, blobs, Lookup(split, n), Lookup(curr, n), Lookup(other, n), Lookup(work, n));
    AsWrittenLaws(Lookup(split, n), Lookup(curr, n), Lookup(other, n));
  }

  /** The conflict blobs stored by the fourth loop are those of the conflicting names. */
  lemma ConflictIdsAgree(h: Hasher, blobs: map<Id, Bytes>, split: map<string, Id>,
                         curr: map<string, Id>, other: map<string, Id>, q: Progress)
    requires Readable(curr, blobs) && Readable(other, blobs)
    requires ReadableProgress(q, blobs) && q.curr.Keys == Conflicts(split, curr, other)
    requires forall n :: n in q.curr ==> RecordsConflict(h, blobs, VerdictOf(split, curr, other, n), SlotOf(q, n))
    ensures ConflictDigests(h, blobs, q, q.curr.Keys) == ConflictBlobIds(h, blobs, split, curr, other)
  {
    var a := ConflictDigests(h, blobs, q, q.curr.Keys);
    var b := ConflictBlobIds(h, blobs, split, curr, other);
    forall x | x in a ensures x in b {
      var n :| n in q.curr && x == Digest(h, ConflictBytes(blobs, SlotOf(q, n)));
      assert n in Conflicts(split, curr, other);
    }
    forall x | x in b ensures x in a {
      var n :| n in Conflicts(split, curr, other) && x == Recorded(h, blobs, VerdictOf(split, curr, other, n)).value;
      assert n in q.curr;
    }
  }

  /** Name by name, the slots after the first three loops single out the conflicting names. */
  lemma EarlySlots(h: Hasher, blobs: map<Id, Bytes>, split: map<string, Id>,
                   curr: map<string, Id>, other: map<string, Id>, work: map<string, Bytes>, q: Progress)
    requires Readable(curr, blobs) && Readable(other, blobs)
    requires forall n :: ReadableSlot(SlotOf(Start(curr, other, work), n), blobs)
    requires forall n :: SlotOf(q, n) == Early(blobs, Lookup(split, n), SlotOf(Start(curr, other, work), n))
    ensures forall n :: n in q.curr <==> n in Conflicts(split, curr, other)
    ensures forall n :: n in q.other ==> n in q.curr
    ensures forall n :: n in q.curr ==> RecordsConflict(h, blobs, VerdictOf(split, curr, other, n), SlotOf(q, n))
  {
    forall n
      ensures n in q.curr <==> n in Conflicts(split, curr, other)
      ensures n in q.other ==> n in q.curr
      ensures n in q.curr ==> RecordsConflict(h, blobs, VerdictOf(split, curr, other, n), SlotOf(q, n))
    {
      ConflictAt(h, blobs, split, curr, other, work, n, SlotOf(q, n));
    }
  }

  /**
   * After the first three loops, `currNames` holds exactly the conflicting
   * names and `otherNames` holds no other name, so doMerge sees a conflict
   * exactly when some name conflicts; the conflict loop stores one blob per
   * conflicting name.
   */
  lemma ConflictsFromSlots(h: Hasher, blobs: map<Id, Bytes>, split: map<string, Id>,
                           curr: map<string, Id>, other: map<string, Id>, work: map<string, Bytes>, q: Progress)
    requires Readable(curr, blobs) && Readable(other, blobs)
    requires forall n :: ReadableSlot(SlotOf(Start(curr, other, work), n), blobs)
    requires forall n :: SlotOf(q, n) == Early(blobs, Lookup(split, n), SlotOf(Start(curr, other, work), n))
    requires ReadableProgress(q, blobs)
    ensures q.curr.Keys == Conflicts(split, curr, other)
    ensures (q.curr != map[] || q.other != map[]) <==> Conflicts(split, curr, other) != {}
    ensures ConflictDigests(h, blobs, q, q.curr.Keys) == ConflictBlobIds(h, blobs, split, curr, other)
  {
    EarlySlots(h, blobs, split, curr, other, work, q);
    if q.other != map[] {
      var n :| n in q.other;
      assert n in q.curr;
    }
    ConflictIdsAgree(h, blobs, split, curr, other, q);
  }

  /** A name left for the conflict loop gets the conflict file of the two heads' versions. */
  lemma ConflictFileAt(h: Hasher, blobs: map<Id, Bytes>, split: map<string, Id>,
                       curr: map<string, Id>, other: map<string, Id>, work: map<string, Bytes>, n: string, sl: Slot)
    requires Readable(curr, blobs) && Readable(other, blobs)
    requires ReadableSlot(SlotOf(Start(curr, other, work), n), blobs)
    requires sl == Early(blobs, Lookup(split, n), SlotOf(Start(curr, other, work), n)) && sl.cur.Some?
    ensures n in curr && n in other && ReadableSlot(sl, blobs)
    ensures ConflictBytes(blobs, sl) == ConflictText(blobs[curr[n]], blobs[other[n]])
  {
    PassesFollowRule(h, blobs, Lookup(split, n), Lookup(curr, n), Lookup(other, n), Lookup(work, n));
    AsWrittenLaws(Lookup(split, n), Lookup(curr, n), Lookup(other, n));
  }

  /** The store the conflict loop leaves is the merged store. */
  lemma ConflictFilesStored(h: Hasher, blobs: map<Id, Bytes>, split: map<string, Id>,
                            curr: map<string, Id>, other: map<string, Id>, work: map<string, Bytes>,
                            q: Progress, store: map<Id, Bytes>)
    requires Readable(curr, blobs) && Readable(other, blobs)
    requires forall n :: ReadableSlot(SlotOf(Start(curr, other, work), n), blobs)
    requires forall n :: SlotOf(q, n) == Early(blobs, Lookup(split, n), SlotOf(Start(curr, other, work), n))
    requires ReadableProgress(q, blobs) && q.curr.Keys == Conflicts(split, curr, other)
    requires ConflictDigests(h, blobs, q, q.curr.Keys) == ConflictBlobIds(h, blobs, split, curr, other)
    requires ContentAddressed(h, store) && store.Keys == blobs.Keys + ConflictDigests(h, blobs, q, q.curr.Keys)
    requires HoldsConflictFiles(h, blobs, q, q.curr.Keys, store)
    ensures MergedStore(h, blobs, split, curr, other, store)
  {
    ReadableSlots(q, blobs);
    forall d | d in ConflictBlobIds(h, blobs, split, curr, other)
      ensures exists n :: n in Conflicts(split, curr, other) && store[d] == ConflictText(blobs[curr[n]], blobs[other[n]])
    {
      var n :| n in q.curr && store[d] == ConflictBytes(blobs, SlotOf(q, n));
      ConflictFileAt(h, blobs, split, curr, other, work, n, SlotOf(q, n));
    }
  }

  /** The first three loops of doMerge, from an empty newContents and the two heads' maps. */
  method FirstPasses(blobs: map<Id, Bytes>, split: map<string, Id>,
                     curr: map<string, Id>, other: map<string, Id>, work: map<string, Bytes>)
    returns (p3: Progress)
    requires Readable(curr, blobs) && Readable(other, blobs)
    ensures forall n :: ReadableSlot(SlotOf(Start(curr, other, work), n), blobs)
    ensures ReadableProgress(p3, blobs)
    ensures forall n :: SlotOf(p3, n) == Early(blobs, Lookup(split, n), SlotOf(Start(curr, other, work), n))
  {
    var p0 := Start(curr, other, work);
    ReadableSlots(p0, blobs);
    var p1 := SplitPass(split, blobs, p0);
    assert forall n :: ReadableSlot(SlotOf(p1, n), blobs);
    SlotsReadable(p1, blobs);
    var p2 := CurrentPass(p1);
    forall n ensures ReadableSlot(SlotOf(p2, n), blobs) {
      CurrentStepReadable(SlotOf(p1, n), blobs);
    }
    SlotsReadable(p2, blobs);
    p3 := OtherPass(blobs, p2);
    assert forall n :: ReadableSlot(SlotOf(p3, n), blobs);
    SlotsReadable(p3, blobs);
  }

  /**
   * The reconciliation of doMerge (Main.java:630-732): runs the first four loops
   * from an empty newContents and the two heads' maps, and yields the merge
   * commit's snapshot, the working tree, the blob store and the conflict flag.
   */
  method Reconcile(h: Hasher, blobs: map<Id, Bytes>, split: map<string, Id>,
                   curr: map<string, Id>, other: map<string, Id>, work: map<string, Bytes>)
    returns (newContents: map<string, Id>, work': map<string, Bytes>, store: map<Id, Bytes>, isConflict: bool)
    requires Readable(curr, blobs) && Readable(other, blobs) && ContentAddressed(h, blobs)
    ensures newContents == MergedData(h, blobs, split, curr, other)
    ensures work' == MergedWork(h, blobs, split, curr, other, work)
    ensures isConflict <==> Conflicts(split, curr, other) != {}
    ensures MergedStore(h, blobs, split, curr, other, store)
  {
    var p3 := FirstPasses(blobs, split, curr, other, work);
    ConflictsFromSlots(h, blobs, split, curr, other, work, p3);
    isConflict := p3.curr != map[] || p3.other != map[];
    var p4;
    p4, store := ConflictPass(h, blobs, p3);
    ConflictFilesStored(h, blobs, split, curr, other, work, p3, store);
    ReadableSlots(p3, blobs);
    assert forall n :: SlotOf(p4, n) == Passes(h, blobs, Lookup(split, n), SlotOf(Start(curr, other, work), n));
    MergedFromSlots(h, blobs, split, curr, other, work, p4);
    newContents, work' := p4.newContents, p4.work;
  }
}
