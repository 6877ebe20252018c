/**
 * Looking commits up by id and by message (Main.checkoutID, Main.doReset and
 * Main.doFind). The commits directory is read through `listing`, the stored
 * ids in the order the file system lists them; that order is not modelled.
 */
module History {
  import opened Objects
  import opened Commits
  import opened Outcomes

  /** `listing` names exactly the stored commits. */
  ghost predicate Lists(listing: seq<Id>, commits: map<Id, Commit>)
  {
    forall id :: id in listing <==> id in commits
  }

  /** The first listed id that starts with `typed`, if there is one. */
  function FirstWithPrefix(listing: seq<Id>, typed: string): (r: Option<Id>)
    ensures r.None? <==> forall i :: 0 <= i < |listing| ==> !(typed <= listing[i])
    ensures r.Some? ==> exists k :: 0 <= k < |listing| && listing[k] == r.value && typed <= r.value
                                    && forall j :: 0 <= j < k ==> !(typed <= listing[j])
  {
    if listing == [] then None
    else if typed <= listing[0] then Some(listing[0])
    else
      var r := FirstWithPrefix(listing[1..], typed);
      assert forall i :: 1 <= i < |listing| ==> listing[i] == listing[1..][i - 1];
      if r.Some? then
        var k :| 0 <= k < |listing[1..]| && listing[1..][k] == r.value && typed <= r.value
                 && forall j :: 0 <= j < k ==> !(typed <= listing[1..][j]);
        assert listing[k + 1] == r.value;
        r
      else r
  }

  /**
   * The commit a typed id names. An id shorter than UID_LENGTH is a prefix and
   * names the first listed commit it starts; any other id must be stored as is.
   */
  function Resolve(commits: map<Id, Commit>, listing: seq<Id>, typed: string): (r: Result<Id>)
    requires Lists(listing, commits)
    ensures r.Err? ==> r.error == NoCommitWithId
    ensures r.Ok? ==> r.value in commits && typed <= r.value
    ensures |typed| < UidLength ==> (r.Ok? <==> exists id :: id in commits && typed <= id)
    ensures |typed| < UidLength && r.Ok? ==> Some(r.value) == FirstWithPrefix(listing, typed)
    ensures |typed| >= UidLength ==> (r.Ok? <==> exists id :: id in commits && id == typed)
    ensures |typed| >= UidLength && r.Ok? ==> r.value == typed
  {
    if |typed| < UidLength then
      match FirstWithPrefix(listing, typed)
      case None =>
        assert forall id :: id in commits ==> !(typed <= id) by {
          forall id | id in commits ensures !(typed <= id) {
            var i :| 0 <= i < |listing| && listing[i] == id;
          }
        }
        Err(NoCommitWithId)
      case Some(id) => if id in commits then Ok(id) else Err(NoCommitWithId)
    else if |typed| == UidLength then
      var id: Id := typed;
      if id in commits then Ok(id) else Err(NoCommitWithId)
    else Err(NoCommitWithId)
  }

  /**
   * The id resolution of checkoutID and doReset: a search loop with a
   * `foundCommit` flag over the listing for a short id, a direct lookup for a
   * full one (Main.java:331-350, 548-567).
   */
  method ResolveId(commits: map<Id, Commit>, listing: seq<Id>, typed: string) returns (r: Result<Id>)
    requires Lists(listing, commits)
    ensures r == Resolve(commits, listing, typed)
  {
    var lastCommit: Option<Id> := None;
    if |typed| < UidLength {
      var foundCommit := false;
      var i := 0;
      while i < |listing|
        invariant 0 <= i <= |listing|
        invariant FirstWithPrefix(listing, typed) == FirstWithPrefix(listing[i..], typed)
      {
        if listing[i][..|typed|] == typed {
          foundCommit := true;
          lastCommit := Some(listing[i]);
          break;
        }
        assert listing[i..][1..] == listing[i + 1..];
        i := i + 1;
      }
      if !foundCommit {
        return Err(NoCommitWithId);
      }
    } else if |typed| == UidLength {
      var id: Id := typed;
      lastCommit := Some(id);
    }
    if lastCommit.None? || lastCommit.value !in commits {
      return Err(NoCommitWithId);
    }
    r := Ok(lastCommit.value);
  }

  /** A stored commit's full id always resolves to that commit. */
  lemma FullIdResolves(commits: map<Id, Commit>, listing: seq<Id>, id: Id)
    requires Lists(listing, commits) && id in commits
    ensures Resolve(commits, listing, id) == Ok(id)
  {
  }

  /**
   * doFind: walks the commits directory and reports every commit whose message
   * is exactly `message`, failing when there is none (Main.java:525-540).
   */
  method FindByMessage(commits: map<Id, Commit>, listing: seq<Id>, message: string)
    returns (r: Result<seq<Id>>)
    requires Lists(listing, commits)
    ensures r.Err? ==> r.error == NoCommitWithMessage
    ensures r.Ok? <==> exists id :: id in commits && commits[id].message == message
    ensures r.Ok? ==> forall id :: id in r.value <==> id in commits && commits[id].message == message
  {
    var found := false;
    var hits: seq<Id> := [];
    for i := 0 to |listing|
      invariant found <==> hits != []
      invariant forall id :: id in hits <==> id in listing[..i] && commits[id].message == message
    {
      var c := commits[listing[i]];
      if message == c.message {
        hits := hits + [listing[i]];
        found := true;
      }
      assert listing[..i + 1] == listing[..i] + [listing[i]];
    }
    assert listing[..|listing|] == listing;
    if !found {
      assert forall id :: id in commits ==> id in listing && id !in hits;
      return Err(NoCommitWithMessage);
    }
    assert hits[0] in hits;
    r := Ok(hits);
  }
}
