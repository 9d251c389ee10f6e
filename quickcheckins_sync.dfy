/** The where-clauses of the QuickCheckIns synchronizations: owner normalisation, the
    session-checked request rules and their authentication failures, and the two legacy
    owner-based listings. */
module QuickCheckInsSync {
  import opened Common
  import opened Frames

  const AuthError := "Authentication failed: Invalid or expired session."

  /** The five variables an owner may arrive in. */
  datatype OwnerVars = OwnerVars(owner: Var, ownerId: Var, ownerFromUser: Var, ownerFromUid: Var, ownerFromRequester: Var)

  /** `frame[owner] ?? frame[ownerId] ?? ... ?? frame[ownerFromRequester]` (left to right). */
  function ResolveOwner(f: Frame, vs: OwnerVars): Option<Value> {
    Coalesce(Coalesce(Coalesce(Coalesce(
      Lookup(f, vs.owner), Lookup(f, vs.ownerId)), Lookup(f, vs.ownerFromUser)),
      Lookup(f, vs.ownerFromUid)), Lookup(f, vs.ownerFromRequester))
  }

  /** The first value that is neither `undefined` nor `null`, or the last one. */
  function FirstNonNullish(vals: seq<Option<Value>>): Option<Value>
    requires |vals| > 0
  {
    if |vals| == 1 || !Nullish(vals[0]) then vals[0] else FirstNonNullish(vals[1..])
  }

  function OwnerCandidates(f: Frame, vs: OwnerVars): seq<Option<Value>> {
    [Lookup(f, vs.owner), Lookup(f, vs.ownerId), Lookup(f, vs.ownerFromUser),
     Lookup(f, vs.ownerFromUid), Lookup(f, vs.ownerFromRequester)]
  }

  /** The chain of `??` picks the first non-nullish candidate, in the order listed. */
  lemma ResolveOwnerIsFirstNonNullish(f: Frame, vs: OwnerVars)
    ensures ResolveOwner(f, vs) == FirstNonNullish(OwnerCandidates(f, vs))
  {
    var c := OwnerCandidates(f, vs);
    var c1, c2, c3 := c[1..], c[2..], c[3..];
    assert c1[1..] == c2 && c2[1..] == c3 && c3[1..] == [c[4]];
    assert FirstNonNullish(c3) == Coalesce(c[3], c[4]);
    assert FirstNonNullish(c2) == if Nullish(c[2]) then Coalesce(c[3], c[4]) else c[2];
    assert FirstNonNullish(c1) == if Nullish(c[1]) then FirstNonNullish(c2) else c[1];
  }

  function OwnerResolves(vs: OwnerVars): Frame -> bool {
    (f: Frame) => Truthy(ResolveOwner(f, vs))
  }

  /** `{ ...frame, [owner]: resolvedOwner }`. */
  function BindResolvedOwner(vs: OwnerVars): Frame -> Frame {
    (f: Frame) =>
      match ResolveOwner(f, vs)
      case Some(x) => f[vs.owner := x]
      case None => f
  }

  /** What `normalizeOwnerBinding` returns: the frames whose owner resolves to a truthy
      value, in order, each with `owner` bound to it. */
  function Normalized(vs: OwnerVars, frames: seq<Frame>): seq<Frame> {
    Map(Filter(frames, OwnerResolves(vs)), BindResolvedOwner(vs))
  }

  /** `normalizeOwnerBinding`: one pass that pushes each kept frame, rebound. */
  method NormalizeOwnerBinding(vs: OwnerVars, frames: seq<Frame>) returns (normalized: seq<Frame>)
    ensures normalized == Normalized(vs, frames)
  {
    normalized := [];
    for i := 0 to |frames|
      invariant normalized == Normalized(vs, frames[..i])
    {
      var frame := frames[i];
      assert frames[..i + 1] == frames[..i] + [frame];
      FilterSnoc(frames[..i], frame, OwnerResolves(vs));
      var resolvedOwner := ResolveOwner(frame, vs);
      if !Truthy(resolvedOwner) {
        continue;
      }
      MapSnoc(Filter(frames[..i], OwnerResolves(vs)), frame, BindResolvedOwner(vs));
      normalized := normalized + [frame[vs.owner := resolvedOwner.value]];
    }
    assert frames[..|frames|] == frames;
  }

  /** Normalisation works frame by frame: it distributes over concatenation, so the output
      keeps the input order, and a single frame is kept, rebound, exactly when its owner
      resolves to a truthy value. */
  lemma NormalizedAppend(vs: OwnerVars, a: seq<Frame>, b: seq<Frame>)
    ensures Normalized(vs, a + b) == Normalized(vs, a) + Normalized(vs, b)
  {
    FilterAppend(a, b, OwnerResolves(vs));
    MapAppend(Filter(a, OwnerResolves(vs)), Filter(b, OwnerResolves(vs)), BindResolvedOwner(vs));
  }

  lemma NormalizedSingle(vs: OwnerVars, f: Frame)
    ensures Truthy(ResolveOwner(f, vs)) ==> Normalized(vs, [f]) == [f[vs.owner := ResolveOwner(f, vs).value]]
    ensures !Truthy(ResolveOwner(f, vs)) ==> Normalized(vs, [f]) == []
  {
    assert [f][1..] == [];
  }

  /** No more frames come out than go in; each one is an input frame whose owner resolved,
      with `owner` bound to that truthy value and nothing else changed; and every input
      frame whose owner resolves comes out. */
  lemma NormalizedSpec(vs: OwnerVars, frames: seq<Frame>)
    ensures |Normalized(vs, frames)| <= |frames|
    ensures forall g :: g in Normalized(vs, frames) ==>
      exists f :: f in frames && Truthy(ResolveOwner(f, vs)) && g == f[vs.owner := ResolveOwner(f, vs).value]
    ensures forall g :: g in Normalized(vs, frames) ==> Truthy(Lookup(g, vs.owner))
    ensures forall f :: f in frames && Truthy(ResolveOwner(f, vs)) ==>
      f[vs.owner := ResolveOwner(f, vs).value] in Normalized(vs, frames)
  {
    var kept := Filter(frames, OwnerResolves(vs));
    forall g | g in Normalized(vs, frames)
      ensures exists f :: f in frames && Truthy(ResolveOwner(f, vs)) && g == f[vs.owner := ResolveOwner(f, vs).value]
    {
      var i :| 0 <= i < |kept| && Normalized(vs, frames)[i] == g;
      assert kept[i] in kept;
    }
    forall f | f in frames && Truthy(ResolveOwner(f, vs))
      ensures f[vs.owner := ResolveOwner(f, vs).value] in Normalized(vs, frames)
    {
      assert f in kept;
      var i :| 0 <= i < |kept| && kept[i] == f;
      assert Normalized(vs, frames)[i] == BindResolvedOwner(vs)(f);
    }
  }

  /** An empty-string `owner` is not nullish, so `??` stops at it, and being falsy it drops
      the frame even though `ownerId` is set. */
  lemma EmptyOwnerDropsFrame(vs: OwnerVars)
    requires vs.owner != vs.ownerId
    ensures Normalized(vs, [map[vs.owner := Str(""), vs.ownerId := Str("u1")]]) == []
  {
    var f := map[vs.owner := Str(""), vs.ownerId := Str("u1")];
    assert ResolveOwner(f, vs) == Some(Str(""));
    NormalizedSingle(vs, f);
  }

  // ---------------------------------------------------------------------------
  // The session-checked rules (record, defineMetric, edit, delete, deleteMetric)
  // ---------------------------------------------------------------------------

  /** The where-clause of each `*Request` rule: the frames `Sessioning._getUser` yields,
      which are there exactly when some frame's session resolves to a user. */
  function RequestWhere(frames: seq<Frame>, getUser: Query): (r: seq<Frame>)
    ensures |r| > 0 <==> exists i :: 0 <= i < |frames| && getUser(frames[i]) != []
    ensures forall g :: g in r ==> exists i :: 0 <= i < |frames| && g in getUser(frames[i])
  {
    QueryAll(frames, getUser)
  }

  /** The where-clause of each `*AuthFailure` rule: the original frames when the session
      lookup yields nothing, and none otherwise. It proceeds exactly when there is a frame
      and no frame's session resolves to a user, and never together with the request
      rule. */
  function AuthFailureWhere(frames: seq<Frame>, getUser: Query): (r: seq<Frame>)
    ensures |r| > 0 <==> |frames| > 0 && forall i :: 0 <= i < |frames| ==> getUser(frames[i]) == []
    ensures |r| > 0 ==> r == frames
    ensures |r| == 0 || |RequestWhere(frames, getUser)| == 0
  {
    if |QueryAll(frames, getUser)| == 0 then frames else []
  }

  // ---------------------------------------------------------------------------
  // Legacy owner-based listings (_listCheckInsByOwner, _listMetricsForOwner)
  // ---------------------------------------------------------------------------

  /** The where-clause of the legacy list rules: normalise the owner; stop if no frame is
      left; run the list query; with no rows answer the first normalised frame with an
      empty list bound to `collection`; otherwise the engine's `collectAs` (`collect`). */
  function LegacyListWhere(vs: OwnerVars, frames: seq<Frame>, query: Query,
                           collect: seq<Frame> -> seq<Frame>, collection: Var): seq<Frame>
  {
    var normalized := Normalized(vs, frames);
    if |normalized| == 0 then normalized
    else
      var rows := QueryAll(normalized, query);
      if |rows| == 0 then [normalized[0][collection := List([])]]
      else collect(rows)
  }

  /** With no frame whose owner resolves, no frame is returned. With one, and a query that
      yields no rows, exactly one frame comes back: the first such frame, with its owner
      bound, extended with the empty list. Otherwise the rows are collected. */
  lemma LegacyListSpec(vs: OwnerVars, frames: seq<Frame>, query: Query,
                       collect: seq<Frame> -> seq<Frame>, collection: Var, k: nat)
    requires k < |frames| && Truthy(ResolveOwner(frames[k], vs))
    requires forall j :: 0 <= j < k ==> !Truthy(ResolveOwner(frames[j], vs))
    ensures var normalized := Normalized(vs, frames);
      (forall g :: g in normalized ==> query(g) == []) ==>
        LegacyListWhere(vs, frames, query, collect, collection) ==
          [frames[k][vs.owner := ResolveOwner(frames[k], vs).value][collection := List([])]]
    ensures var normalized := Normalized(vs, frames);
      (exists g :: g in normalized && query(g) != []) ==>
        LegacyListWhere(vs, frames, query, collect, collection) == collect(QueryAll(normalized, query))
  {
    NormalizedFirst(vs, frames, k);
    LegacyListRows(Normalized(vs, frames), query, collect, collection);
  }

  /** The rows step of the legacy list rules, over the normalised frames. */
  lemma LegacyListRows(normalized: seq<Frame>, query: Query, collect: seq<Frame> -> seq<Frame>, collection: Var)
    requires |normalized| > 0
    ensures var rows := QueryAll(normalized, query);
      (forall g :: g in normalized ==> query(g) == []) ==> |rows| == 0
    ensures var rows := QueryAll(normalized, query);
      (exists g :: g in normalized && query(g) != []) ==> |rows| != 0
  {
    if forall g :: g in normalized ==> query(g) == [] {
      assert forall i :: 0 <= i < |normalized| ==> |query(normalized[i])| == 0;
    } else {
      var g :| g in normalized && query(g) != [];
      var i :| 0 <= i < |normalized| && normalized[i] == g;
    }
  }

  /** The first normalised frame is the first input frame whose owner resolves. */
  lemma NormalizedFirst(vs: OwnerVars, frames: seq<Frame>, k: nat)
    requires k < |frames| && Truthy(ResolveOwner(frames[k], vs))
    requires forall j :: 0 <= j < k ==> !Truthy(ResolveOwner(frames[j], vs))
    ensures |Normalized(vs, frames)| > 0
    ensures Normalized(vs, frames)[0] == frames[k][vs.owner := ResolveOwner(frames[k], vs).value]
  {
    assert frames == frames[..k] + [frames[k]] + frames[k + 1..];
    NormalizedAppend(vs, frames[..k] + [frames[k]], frames[k + 1..]);
    NormalizedAppend(vs, frames[..k], [frames[k]]);
    forall f | f in frames[..k] ensures !OwnerResolves(vs)(f) {
      var j :| 0 <= j < k && frames[..k][j] == f;
      assert frames[j] == f;
    }
    FilterNone(frames[..k], OwnerResolves(vs));
    NormalizedSingle(vs, frames[k]);
  }

  /** With no frame whose owner resolves, nothing is returned. */
  lemma LegacyListNoOwner(vs: OwnerVars, frames: seq<Frame>, query: Query,
                          collect: seq<Frame> -> seq<Frame>, collection: Var)
    requires forall f :: f in frames ==> !Truthy(ResolveOwner(f, vs))
    ensures LegacyListWhere(vs, frames, query, collect, collection) == []
  {
    FilterNone(frames, OwnerResolves(vs));
  }
}
