/** The where-clauses of the MealLog synchronizations: owner-checked edit and delete, the
    list and by-owner queries, lookup by id, and the three rules that answer a request for
    one meal. */
module MealLogSync {
  import opened Common
  import opened Frames

  const MealNotFound := "Meal not found"
  const PermissionDenied := "Permission denied"

  /** `$[a] === $[b]`, with `undefined === undefined`. */
  function SameBinding(a: Var, b: Var): Frame -> bool {
    (f: Frame) => Lookup(f, a) == Lookup(f, b)
  }

  /** The where-clause of EditMealRequest and DeleteMealRequest: the session's user, the
      meal's owner, and only the frames where the two are the same. */
  function OwnerCheckedWhere(frames: seq<Frame>, getUser: Query, getMealOwner: Query, user: Var, owner: Var): (r: seq<Frame>)
    ensures forall g :: g in r <==> g in QueryAll(QueryAll(frames, getUser), getMealOwner) && Lookup(g, user) == Lookup(g, owner)
    ensures |r| <= |QueryAll(QueryAll(frames, getUser), getMealOwner)|
  {
    Filter(QueryAll(QueryAll(frames, getUser), getMealOwner), SameBinding(user, owner))
  }

  /** The where-clause of ListMeals: no frames without a session user; the user's meals
      collected (`collect` is the engine's `collectAs`); with no meals, the first user
      frame with an empty list bound to `meals`. */
  function ListMealsWhere(frames: seq<Frame>, getUser: Query, getMealsByOwner: Query,
                          collect: seq<Frame> -> seq<Frame>, meals: Var): (r: seq<Frame>)
    ensures |QueryAll(frames, getUser)| == 0 ==> r == []
    ensures |QueryAll(frames, getUser)| > 0 && |QueryAll(QueryAll(frames, getUser), getMealsByOwner)| == 0 ==>
      |r| == 1 && Lookup(r[0], meals) == Some(List([]))
      && forall v :: v != meals ==> Lookup(r[0], v) == Lookup(QueryAll(frames, getUser)[0], v)
    ensures |QueryAll(QueryAll(frames, getUser), getMealsByOwner)| > 0 ==>
      r == collect(QueryAll(QueryAll(frames, getUser), getMealsByOwner))
  {
    var withUser := QueryAll(frames, getUser);
    if |withUser| == 0 then []
    else
      var mealFrames := QueryAll(withUser, getMealsByOwner);
      if |mealFrames| == 0 then [withUser[0][meals := List([])]]
      else collect(mealFrames)
  }

  /** The where-clause of GetMealsByOwnerRequest and GetMealsByOwnerWithDeletedRequest
      (which differ only in the query's inputs): the owner's meals collected, or exactly
      one frame, the first (empty when there is none), with an empty list. */
  function MealsByOwnerWhere(frames: seq<Frame>, getMealsByOwner: Query,
                             collect: seq<Frame> -> seq<Frame>, meals: Var): (r: seq<Frame>)
    ensures |QueryAll(frames, getMealsByOwner)| == 0 ==>
      |r| == 1 && Lookup(r[0], meals) == Some(List([]))
      && forall v :: v != meals ==> Lookup(r[0], v) == Lookup(FirstOrEmpty(frames), v)
    ensures |QueryAll(frames, getMealsByOwner)| > 0 ==> r == collect(QueryAll(frames, getMealsByOwner))
  {
    var mealFrames := QueryAll(frames, getMealsByOwner);
    if |mealFrames| == 0 then [FirstOrEmpty(frames)[meals := List([])]]
    else collect(mealFrames)
  }

  /** The where-clause of GetMealByIdSuccess: `_getMealById` with its result bound to
      `mealDoc` (`lookupAsDoc`). */
  function MealByIdSuccessWhere(frames: seq<Frame>, lookupAsDoc: Query): seq<Frame> {
    QueryAll(frames, lookupAsDoc)
  }

  /** The where-clause of GetMealByIdNotFound: `_getMealById` with its result bound back to
      the request's own `meal` (`lookupAsMeal`); one error frame exactly when that lookup
      yields nothing. */
  function MealByIdNotFoundWhere(frames: seq<Frame>, lookupAsMeal: Query, error: Var): (r: seq<Frame>)
    ensures |r| <= 1
    ensures |r| == 1 <==> |QueryAll(frames, lookupAsMeal)| == 0
    ensures |r| == 1 ==> Lookup(r[0], error) == Some(Str(MealNotFound))
    ensures |r| == 1 ==> forall v :: v != error ==> Lookup(r[0], v) == Lookup(FirstOrEmpty(frames), v)
  {
    if |QueryAll(frames, lookupAsMeal)| == 0 then [FirstOrEmpty(frames)[error := Str(MealNotFound)]]
    else []
  }

  /** When the two output bindings of `_getMealById` are empty for the same frames, exactly
      one of GetMealByIdSuccess and GetMealByIdNotFound proceeds. */
  lemma MealByIdOutcomesExclusive(frames: seq<Frame>, lookupAsDoc: Query, lookupAsMeal: Query, error: Var)
    requires forall f :: |lookupAsDoc(f)| == 0 <==> |lookupAsMeal(f)| == 0
    ensures |MealByIdNotFoundWhere(frames, lookupAsMeal, error)| == 1 <==> |MealByIdSuccessWhere(frames, lookupAsDoc)| == 0
    ensures |MealByIdNotFoundWhere(frames, lookupAsMeal, error)| == 0 <==> |MealByIdSuccessWhere(frames, lookupAsDoc)| > 0
  {
    assert (forall i :: 0 <= i < |frames| ==> |lookupAsDoc(frames[i])| == 0)
       <==> (forall i :: 0 <= i < |frames| ==> |lookupAsMeal(frames[i])| == 0);
  }

  // ---------------------------------------------------------------------------
  // Getting one meal: success, not found, permission denied
  // ---------------------------------------------------------------------------

  /** `doc && doc.owner === $[user]` for `doc = $[mealDoc]`. */
  predicate OwnsMeal(f: Frame, user: Var, mealDoc: Var) {
    Truthy(Lookup(f, mealDoc)) && Field(f[mealDoc], "owner") == Lookup(f, user)
  }

  function OwnsMealIn(user: Var, mealDoc: Var): Frame -> bool {
    (f: Frame) => OwnsMeal(f, user, mealDoc)
  }

  /** The where-clause of GetMealSuccess: the session user's frames, the meal looked up from
      them, and only the frames where the meal's owner is that user. */
  function GetMealSuccessWhere(frames: seq<Frame>, getUser: Query, getMealById: Query, user: Var, mealDoc: Var): (r: seq<Frame>)
    ensures |QueryAll(frames, getUser)| == 0 ==> r == []
    ensures forall g :: g in r <==> g in QueryAll(QueryAll(frames, getUser), getMealById) && OwnsMeal(g, user, mealDoc)
  {
    var withUser := QueryAll(frames, getUser);
    if |withUser| == 0 then []
    else
      var withMeal := QueryAll(withUser, getMealById);
      if |withMeal| == 0 then []
      else Filter(withMeal, OwnsMealIn(user, mealDoc))
  }

  /** The where-clause of GetMealNotFound: when the meal lookup (on the request's frames)
      yields nothing, the user frames each with the error; otherwise nothing. */
  function GetMealNotFoundWhere(frames: seq<Frame>, getUser: Query, getMealById: Query, error: Var): (r: seq<Frame>)
    ensures |QueryAll(frames, getUser)| == 0 ==> r == []
    ensures |QueryAll(frames, getMealById)| > 0 ==> r == []
    ensures |QueryAll(frames, getMealById)| == 0 ==>
      |r| == |QueryAll(frames, getUser)|
      && forall i :: 0 <= i < |r| ==>
        r[i] == QueryAll(frames, getUser)[i][error := Str(MealNotFound)]
  {
    var withUser := QueryAll(frames, getUser);
    if |withUser| == 0 then []
    else
      var mealFrames := QueryAll(frames, getMealById);
      if |mealFrames| == 0 then Map(withUser, BindError(error, MealNotFound))
      else []
  }

  function BindError(error: Var, message: string): Frame -> Frame {
    (f: Frame) => f[error := Str(message)]
  }

  /** GetMealPermissionDenied as written: the ownership filter runs over the meal frames
      looked up from the request's own frames, which the session query has not extended
      with `user`. */
  function PermissionDeniedAsWritten(frames: seq<Frame>, getUser: Query, getMealById: Query,
                                     user: Var, mealDoc: Var, error: Var): (r: seq<Frame>)
    ensures |QueryAll(frames, getUser)| == 0 ==> r == []
    ensures |QueryAll(frames, getMealById)| == 0 ==> r == []
  {
    var withUser := QueryAll(frames, getUser);
    if |withUser| == 0 then []
    else
      var mealFrames := QueryAll(frames, getMealById);
      if |mealFrames| == 0 then []
      else
        var authorized := Filter(mealFrames, OwnsMealIn(user, mealDoc));
        if |authorized| == 0 then Map(withUser, BindError(error, PermissionDenied))
        else []
  }

  /** A request by the meal's owner, with the session query binding `user` and the meal
      query binding `mealDoc` onto their input frame: GetMealSuccess proceeds, and so does
      GetMealPermissionDenied as written. */
  lemma PermissionDeniedFiresForOwner()
    ensures var frames := [map["session" := Str("s1"), "meal" := Str("m1")]];
      var getUser := (f: Frame) => [f["user" := Str("u1")]];
      var getMealById := (f: Frame) => [f["mealDoc" := Record(map["owner" := Str("u1")])]];
      && |GetMealSuccessWhere(frames, getUser, getMealById, "user", "mealDoc")| == 1
      && |PermissionDeniedAsWritten(frames, getUser, getMealById, "user", "mealDoc", "error")| == 1
  {
    var request := map["session" := Str("s1"), "meal" := Str("m1")];
    var frames := [request];
    var getUser := (f: Frame) => [f["user" := Str("u1")]];
    var doc := Record(map["owner" := Str("u1")]);
    var getMealById := (f: Frame) => [f["mealDoc" := doc]];
    var withUser := QueryAll(frames, getUser);
    assert withUser == [request["user" := Str("u1")]] by {
      assert frames[1..] == [];
    }
    var withMeal := QueryAll(withUser, getMealById);
    assert withMeal == [request["user" := Str("u1")]["mealDoc" := doc]] by {
      assert withUser[1..] == [];
    }
    assert OwnsMeal(withMeal[0], "user", "mealDoc");
    assert withMeal[0] in Filter(withMeal, OwnsMealIn("user", "mealDoc"));
    var mealFrames := QueryAll(frames, getMealById);
    assert mealFrames == [request["mealDoc" := doc]] by {
      assert frames[1..] == [];
    }
    assert !OwnsMeal(mealFrames[0], "user", "mealDoc");
    FilterNone(mealFrames, OwnsMealIn("user", "mealDoc"));
  }

  /** GetMealPermissionDenied as intended: the meal lookup's emptiness decides, as in
      GetMealNotFound, and the ownership filter runs over the same user-extended frames as
      GetMealSuccess. */
  function GetMealPermissionDeniedWhere(frames: seq<Frame>, getUser: Query, getMealById: Query,
                                        user: Var, mealDoc: Var, error: Var): (r: seq<Frame>)
    ensures |QueryAll(frames, getUser)| == 0 ==> r == []
    ensures |QueryAll(frames, getMealById)| == 0 ==> r == []
    ensures |r| > 0 ==>
      |r| == |QueryAll(frames, getUser)|
      && forall i :: 0 <= i < |r| ==> r[i] == QueryAll(frames, getUser)[i][error := Str(PermissionDenied)]
  {
    var withUser := QueryAll(frames, getUser);
    if |withUser| == 0 then []
    else
      var mealFrames := QueryAll(frames, getMealById);
      if |mealFrames| == 0 then []
      else
        var authorized := Filter(QueryAll(withUser, getMealById), OwnsMealIn(user, mealDoc));
        if |authorized| == 0 then Map(withUser, BindError(error, PermissionDenied))
        else []
  }

  /** With the corrected rule, permission denied never proceeds together with success,
      nor together with not found; for a session user, a found meal that nobody in the
      user frames owns is denied. */
  lemma GetMealOutcomesExclusive(frames: seq<Frame>, getUser: Query, getMealById: Query,
                                 user: Var, mealDoc: Var, error: Var)
    ensures |GetMealSuccessWhere(frames, getUser, getMealById, user, mealDoc)| == 0
         || |GetMealPermissionDeniedWhere(frames, getUser, getMealById, user, mealDoc, error)| == 0
    ensures |GetMealNotFoundWhere(frames, getUser, getMealById, error)| == 0
         || |GetMealPermissionDeniedWhere(frames, getUser, getMealById, user, mealDoc, error)| == 0
    ensures (&& |QueryAll(frames, getUser)| > 0
             && |QueryAll(frames, getMealById)| > 0
             && |GetMealSuccessWhere(frames, getUser, getMealById, user, mealDoc)| == 0)
      ==> |GetMealPermissionDeniedWhere(frames, getUser, getMealById, user, mealDoc, error)| > 0
  {
    var withUser := QueryAll(frames, getUser);
    if |withUser| > 0 {
      var withMeal := QueryAll(withUser, getMealById);
      var authorized := Filter(withMeal, OwnsMealIn(user, mealDoc));
      if |authorized| > 0 {
        assert authorized[0] in authorized;
        assert authorized[0] in GetMealSuccessWhere(frames, getUser, getMealById, user, mealDoc);
      }
    }
  }
}
