/**
 * The shared meal store (src/context/meal.jsx): the capture handed from the
 * dashboard to the processing page, the analysis handed on to the result
 * page, and the cached meal list with its loading and error flags. The
 * asynchronous `refreshMeals` is split at its one `await` so that an unmount
 * in between can be modelled.
 */
module MealContext {
  import opened Basics
  import Text
  import Meals
  import Image
  import Api

  /** The photo chosen on the dashboard: `{file, previewUrl}`. */
  datatype Capture = Capture(file: Option<Image.File>, previewUrl: string)

  /**
   * A `/predict` response body. String fields hold "" where the JSON value is
   * missing or falsy; `ingredients` is None when missing or falsy.
   */
  datatype Prediction = Prediction(
    meal: string,
    food: string,
    ingredients: Option<seq<string>>,
    calories: Meals.Calories,
    image: string,
    imageUrl: string)

  /** The record the processing page builds for the result page. */
  datatype Analysis = Analysis(
    meal: string,
    ingredients: seq<string>,
    calories: Meals.Calories,
    image: string,
    imageUrl: string,
    raw: Option<Prediction>,
    previewUrl: string)

  /** What `getMeals()` did: produced a body, or rejected with a transport error. */
  datatype Fetch = Fetched(payload: Api.MealsPayload) | FetchFailed(error: Api.ClientError)

  const DefaultMealsError := "Unable to load meals from the server right now."

  /** The error text a failed refresh shows: `error?.message || default`. */
  function RefreshErrorMessage(e: Api.ClientError): (m: string)
    ensures m != ""
    ensures e.message != "" ==> m == e.message
    ensures e.message == "" ==> m == DefaultMealsError
  {
    if e.message != "" then e.message else DefaultMealsError
  }

  /** What `refreshMeals()` resolves with, or rejects with after the interceptor has run. */
  function RefreshOutcome(fetch: Fetch): (r: Result<seq<Meals.MealRecord>, Api.ClientError>)
    ensures fetch.Fetched? ==> r == Ok(Api.GetMeals(fetch.payload))
    ensures fetch.FetchFailed? ==> r == Err(Api.NormalizeError(fetch.error))
  {
    match fetch
    case Fetched(payload) => Ok(Api.GetMeals(payload))
    case FetchFailed(e) => Err(Api.NormalizeError(e))
  }

  /** `MealProvider`'s state, and the `isMounted` ref. */
  class MealStore {
    var capture: Option<Capture>
    var analysis: Option<Analysis>
    var meals: seq<Meals.MealRecord>
    var mealsLoading: bool
    var mealsError: string
    var mounted: bool

    /** The initial state of the provider. */
    constructor ()
      ensures capture.None? && analysis.None? && meals == []
      ensures !mealsLoading && mealsError == "" && mounted
    {
      capture := None;
      analysis := None;
      meals := [];
      mealsLoading := false;
      mealsError := "";
      mounted := true;
    }

    method SetCapture(c: Option<Capture>)
      modifies this
      ensures capture == c
      ensures analysis == old(analysis) && meals == old(meals) && mealsLoading == old(mealsLoading)
      ensures mealsError == old(mealsError) && mounted == old(mounted)
    {
      capture := c;
    }

    method SetAnalysis(a: Option<Analysis>)
      modifies this
      ensures analysis == a
      ensures capture == old(capture) && meals == old(meals) && mealsLoading == old(mealsLoading)
      ensures mealsError == old(mealsError) && mounted == old(mounted)
    {
      analysis := a;
    }

    /** The unmount cleanup: only the ref changes. */
    method Unmount()
      modifies this
      ensures !mounted
      ensures capture == old(capture) && analysis == old(analysis) && meals == old(meals)
      ensures mealsLoading == old(mealsLoading) && mealsError == old(mealsError)
    {
      mounted := false;
    }

    /** `refreshMeals` up to its `await`: loading on, error cleared. */
    method BeginRefresh()
      modifies this
      ensures mealsLoading && mealsError == ""
      ensures capture == old(capture) && analysis == old(analysis) && meals == old(meals)
      ensures mounted == old(mounted)
    {
      mealsLoading := true;
      mealsError := "";
    }

    /**
     * `refreshMeals` after its `await`: what it resolves or rejects with is
     * the fetch outcome whatever the mount state; while mounted, a success
     * stores the list, a failure empties it and sets the message, and loading
     * ends; once unmounted nothing changes.
     */
    method CompleteRefresh(fetch: Fetch) returns (r: Result<seq<Meals.MealRecord>, Api.ClientError>)
      modifies this
      ensures r == RefreshOutcome(fetch)
      ensures capture == old(capture) && analysis == old(analysis) && mounted == old(mounted)
      ensures !old(mounted) ==>
        meals == old(meals) && mealsLoading == old(mealsLoading) && mealsError == old(mealsError)
      ensures old(mounted) && r.Ok? ==>
        meals == r.value && !mealsLoading && mealsError == old(mealsError)
      ensures old(mounted) && r.Err? ==>
        meals == [] && !mealsLoading && mealsError == RefreshErrorMessage(r.error)
    {
      r := RefreshOutcome(fetch);
      match r {
        case Ok(data) =>
          if mounted {
            meals := data;
          }
        case Err(error) =>
          if mounted {
            meals := [];
            mealsError := RefreshErrorMessage(error);
          }
      }
      if mounted {
        mealsLoading := false;
      }
    }

    /** `refreshMeals` with no unmount during the fetch. */
    method RefreshMeals(fetch: Fetch) returns (r: Result<seq<Meals.MealRecord>, Api.ClientError>)
      modifies this
      ensures r == RefreshOutcome(fetch)
      ensures capture == old(capture) && analysis == old(analysis) && mounted == old(mounted)
      ensures !mealsLoading || !mounted
      ensures mounted && r.Ok? ==> meals == r.value && mealsError == ""
      ensures mounted && r.Err? ==> meals == [] && mealsError == RefreshErrorMessage(r.error)
    {
      BeginRefresh();
      r := CompleteRefresh(fetch);
    }
  }

  const OutsideProviderMessage := "useMeal must be used within a MealProvider."

  /** `useMeal`: the enclosing provider's store, or the error it throws without one. */
  function UseMeal(context: Option<MealStore>): (r: Result<MealStore, string>)
    ensures context.None? <==> r == Err(OutsideProviderMessage)
    ensures context.Some? ==> r == Ok(context.value)
  {
    match context
    case None => Err(OutsideProviderMessage)
    case Some(store) => Ok(store)
  }

  /** The server's own message reaches the store when the response carries one. */
  lemma ServerMessageReachesStore(message: string, status: int, d: Api.ErrorData)
    requires d.message != ""
    ensures RefreshErrorMessage(Api.NormalizeError(Api.TransportError(message, Some(Api.HttpResponse(status, Some(d)))))) == d.message
  {
    var e := Api.TransportError(message, Some(Api.HttpResponse(status, Some(d))));
    Text.FirstNonEmptyPicksEarliest([d.message, d.error, e.message], 0);
  }
}
