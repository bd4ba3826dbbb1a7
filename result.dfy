/**
 * The result page (src/pages/Result.jsx): the redirect without an analysis,
 * the image shown, and saving the analysed meal with its calories rounded.
 * The save request's outcome and the refresh that follows are parameters.
 */
module ResultPage {
  import opened Basics
  import Text
  import Meals
  import Image
  import Api
  import MealContext

  const HomePath := "/dashboard/home"
  const DefaultMealName := "Logged Meal"
  const DefaultSaveError := "Unable to save this meal right now. Please try again."

  /**
   * The calories sent on save: `Number(calories)` rounded with `Math.round`
   * when finite, otherwise 0.
   */
  function SavedCalories(c: Meals.Calories): (n: int)
    ensures Meals.FiniteNumber(c).None? ==> n == 0
    ensures Meals.FiniteNumber(c).Some? ==>
      var x := Meals.FiniteNumber(c).value;
      x - 0.5 < n as real <= x + 0.5
  {
    match Meals.FiniteNumber(c)
    case Some(x) => Image.Round(x)
    case None => 0
  }

  /**
   * Worked example, for documentation: 120.6 becomes 121, halves round up,
   * and null, undefined and NaN become 0. The statement for every input is
   * SavedCalories' contract.
   */
  lemma SavedCaloriesExamples()
    ensures SavedCalories(Meals.Finite(120.6)) == 121
    ensures SavedCalories(Meals.Finite(120.5)) == 121
    ensures SavedCalories(Meals.Finite(-0.5)) == 0
    ensures SavedCalories(Meals.Null) == 0
    ensures SavedCalories(Meals.Undefined) == 0
    ensures SavedCalories(Meals.NonFinite) == 0
  {
    assert (120.6 + 0.5).Floor == 121;
    assert (120.5 + 0.5).Floor == 121;
    assert (-0.5 + 0.5).Floor == 0;
  }

  /** An integral calorie count is sent unchanged. */
  lemma SavedCaloriesOfInteger(n: int)
    ensures SavedCalories(Meals.Finite(n as real)) == n
  {
    Image.RoundOfInteger(n);
  }

  /** The body of the save request. */
  datatype SavePayload = SavePayload(name: string, calories: int, image: string)

  /** `{name: mealName, calories: caloriesValue, image: analysis.image || analysis.image_url}`. */
  function PayloadOf(a: MealContext.Analysis): (p: SavePayload)
    ensures p.name != ""
    ensures a.meal != "" ==> p.name == a.meal
    ensures a.meal == "" ==> p.name == DefaultMealName
    ensures p.calories == SavedCalories(a.calories)
    ensures a.image != "" ==> p.image == a.image
    ensures a.image == "" ==> p.image == a.imageUrl
  {
    SavePayload(
      if a.meal != "" then a.meal else DefaultMealName,
      SavedCalories(a.calories),
      if a.image != "" then a.image else a.imageUrl)
  }

  /** `imageSrc`: the analysis preview, the capture preview, the backend image, then the placeholder. */
  function ImageSrc(analysis: Option<MealContext.Analysis>, capture: Option<MealContext.Capture>): (src: string)
    ensures src != ""
    ensures analysis.Some? && analysis.value.previewUrl != "" ==> src == analysis.value.previewUrl
    ensures (analysis.None? || analysis.value.previewUrl == "") && capture.Some? && capture.value.previewUrl != "" ==>
      src == capture.value.previewUrl
    ensures (analysis.None? || analysis.value.previewUrl == "") && (capture.None? || capture.value.previewUrl == "") ==>
      var backend := if analysis.Some? then Text.FirstNonEmpty([analysis.value.image, analysis.value.imageUrl]) else "";
      src == Api.ResolveBackendImage(backend)
  {
    if analysis.Some? && analysis.value.previewUrl != "" then analysis.value.previewUrl
    else if capture.Some? && capture.value.previewUrl != "" then capture.value.previewUrl
    else
      var backendImage := if analysis.Some? then Text.FirstNonEmpty([analysis.value.image, analysis.value.imageUrl]) else "";
      if backendImage != "" then Api.ResolveBackendImage(backendImage) else Api.PlaceholderImage
  }

  class ResultPage {
    var error: string
    var saving: bool
    /** Navigations made, in order. */
    var navigations: seq<string>

    constructor ()
      ensures error == "" && !saving && navigations == []
    {
      error := "";
      saving := false;
      navigations := [];
    }

    /** The redirect guard: without an analysis the page goes home. */
    method OnAnalysisChanged(store: MealContext.MealStore)
      modifies this
      ensures store.analysis.None? ==> navigations == old(navigations) + [HomePath]
      ensures store.analysis.Some? ==> navigations == old(navigations)
      ensures error == old(error) && saving == old(saving)
    {
      if store.analysis.None? {
        navigations := navigations + [HomePath];
      }
    }

    /** `resetFlow`: capture and analysis cleared. */
    method ResetFlow(store: MealContext.MealStore)
      modifies store
      ensures store.capture.None? && store.analysis.None?
      ensures store.meals == old(store.meals) && store.mealsLoading == old(store.mealsLoading)
      ensures store.mealsError == old(store.mealsError) && store.mounted == old(store.mounted)
    {
      store.SetCapture(None);
      store.SetAnalysis(None);
    }

    /** `handleCancel`: reset the flow and go home. */
    method HandleCancel(store: MealContext.MealStore)
      modifies this, store
      ensures store.capture.None? && store.analysis.None?
      ensures store.meals == old(store.meals) && store.mealsLoading == old(store.mealsLoading)
      ensures store.mealsError == old(store.mealsError) && store.mounted == old(store.mounted)
      ensures navigations == old(navigations) + [HomePath]
      ensures error == old(error) && saving == old(saving)
    {
      ResetFlow(store);
      navigations := navigations + [HomePath];
    }

    /**
     * `handleSave`. Without an analysis nothing happens. Otherwise the payload
     * is sent; on success the meals are refreshed (a refresh failure is
     * dropped), the flow is reset and the page goes home; on failure the
     * message is set and the flow is kept. Saving is over either way.
     */
    method HandleSave(store: MealContext.MealStore, saveFailure: Option<Api.ClientError>, refresh: MealContext.Fetch)
      returns (sent: Option<SavePayload>)
      modifies this, store
      ensures old(store.analysis).None? ==> sent.None? && unchanged(this) && unchanged(store)
      ensures old(store.analysis).Some? ==> sent == Some(PayloadOf(old(store.analysis).value)) && !saving
      ensures old(store.analysis).Some? && saveFailure.None? ==>
        && store.capture.None? && store.analysis.None?
        && error == ""
        && navigations == old(navigations) + [HomePath]
        && (store.mounted ==>
              store.meals == (match MealContext.RefreshOutcome(refresh) case Ok(data) => data case Err(_) => []))
      ensures old(store.analysis).Some? && saveFailure.Some? ==>
        && error == Api.ErrorText(Api.NormalizeError(saveFailure.value), DefaultSaveError)
        && unchanged(store)
        && navigations == old(navigations)
    {
      sent := None;
      if store.analysis.None? {
        return;
      }
      var analysis := store.analysis.value;
      error := "";
      saving := true;

      var payload := PayloadOf(analysis);
      sent := Some(payload);
      match saveFailure {
        case None =>
          var _ := store.RefreshMeals(refresh);
          ResetFlow(store);
          navigations := navigations + [HomePath];
        case Some(e) =>
          error := Api.ErrorText(Api.NormalizeError(e), DefaultSaveError);
      }
      saving := false;
    }
  }
}
