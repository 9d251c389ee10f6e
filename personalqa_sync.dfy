/** The where-clauses of the PersonalQA synchronizations: the session check and its
    failure, and the list responses of the per-user queries. */
module PersonalQASync {
  import opened Common
  import opened Frames

  const SessionAuthError := "Invalid or expired session."

  function IsBound(v: Var): Frame -> bool {
    (f: Frame) => v in f
  }

  /** `ensureSession`: the session lookup's frames that bind `user`. */
  function EnsureSession(frames: seq<Frame>, getUser: Query, user: Var): (r: seq<Frame>)
    ensures forall g :: g in r ==> Lookup(g, user).Some?
    ensures forall g :: g in r <==> g in QueryAll(frames, getUser) && user in g
  {
    Filter(QueryAll(frames, getUser), IsBound(user))
  }

  /** `sessionFailure`: the frames of the session lookup (asked to bind `error`) in which
      `error` is bound. */
  function SessionFailure(frames: seq<Frame>, getUserError: Query, error: Var): (r: seq<Frame>)
    ensures forall g :: g in r ==> Lookup(g, error).Some?
    ensures forall g :: g in r <==> g in QueryAll(frames, getUserError) && error in g
  {
    Filter(QueryAll(frames, getUserError), IsBound(error))
  }

  /** `buildListResponse`: exactly one frame, the first (or an empty one), with `list`
      bound to the items and every other binding kept. */
  function BuildListResponse(frames: seq<Frame>, list: Var, items: seq<Value>): (r: seq<Frame>)
    ensures |r| == 1
    ensures Lookup(r[0], list) == Some(List(items))
    ensures forall v :: v != list ==> Lookup(r[0], v) == Lookup(FirstOrEmpty(frames), v)
  {
    [FirstOrEmpty(frames)[list := List(items)]]
  }

  /** The where-clause of GetUserFactsRequest, GetUserQAsRequest and GetUserDraftsRequest
      (and their legacy paths): the session check, then the concept query (`fetch`) for the
      first frame's user, answered as a list. */
  function GetUserListWhere(frames: seq<Frame>, getUser: Query, user: Var, list: Var,
                            fetch: Value -> seq<Value>): seq<Frame>
  {
    var checked := EnsureSession(frames, getUser, user);
    if |checked| == 0 then checked
    else if Lookup(checked[0], user).None? then []
    else BuildListResponse(checked, list, fetch(checked[0][user]))
  }

  /** Nothing proceeds without a frame that binds the session's user; otherwise exactly one
      frame does, listing the query's results for the first such frame's user and keeping
      that frame's other bindings. The `undefined` owner check never fires after the
      session check. */
  lemma GetUserListSpec(frames: seq<Frame>, getUser: Query, user: Var, list: Var, fetch: Value -> seq<Value>)
    ensures var checked := EnsureSession(frames, getUser, user);
      |checked| == 0 <==> GetUserListWhere(frames, getUser, user, list, fetch) == []
    ensures var checked := EnsureSession(frames, getUser, user);
      var r := GetUserListWhere(frames, getUser, user, list, fetch);
      |checked| > 0 ==>
        && |r| == 1
        && Lookup(r[0], list) == Some(List(fetch(checked[0][user])))
        && forall v :: v != list ==> Lookup(r[0], v) == Lookup(checked[0], v)
  {
    var checked := EnsureSession(frames, getUser, user);
    if |checked| > 0 {
      assert checked[0] in checked;
    }
  }
}
