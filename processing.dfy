/**
 * The processing page (src/pages/Processing.jsx): upload the captured photo,
 * pick the stored reference, ask for a prediction, and hand the analysis to
 * the result page, or clear the flow and go home. The two requests are
 * outcomes given to `Run`; the timers become a pending redirect that the
 * effect's cleanup cancels.
 */
module Processing {
  import opened Basics
  import Text
  import Meals
  import Image
  import Api
  import MealContext

  /** An `/upload` response body; "" where a key is missing or falsy. */
  datatype UploadResult = UploadResult(path: string, imageUrl: string, image: string, filename: string, file: string)

  /** A request the page sends, with the file it carries. */
  datatype Request = UploadRequest(file: Image.File) | PredictRequest(file: Image.File)

  /** A `setTimeout` navigation that has not fired yet. */
  datatype Redirect = Redirect(target: string, delayMs: nat)

  const HomePath := "/dashboard/home"
  const ResultPath := "/result"
  const MissingReferenceError := "Upload failed. No filename returned from server."
  const DefaultAnalysisError := "We could not analyze this meal. Please try again."
  const DefaultMealName := "Logged Meal"

  /** `storedFilename`: the first non-empty reference, "" standing for null. */
  function StoredReference(u: Option<UploadResult>): (r: string)
    ensures u.None? ==> r == ""
    ensures u.Some? ==> r == Text.FirstNonEmpty([u.value.path, u.value.imageUrl, u.value.image, u.value.filename, u.value.file])
  {
    match u
    case None => ""
    case Some(v) => Text.FirstNonEmpty([v.path, v.imageUrl, v.image, v.filename, v.file])
  }

  /** `path` wins over every other key, and `image_url` over the rest. */
  lemma StoredReferencePriority(u: UploadResult)
    ensures u.path != "" ==> StoredReference(Some(u)) == u.path
    ensures u.path == "" && u.imageUrl != "" ==> StoredReference(Some(u)) == u.imageUrl
    ensures u.path == "" && u.imageUrl == "" && u.image != "" ==> StoredReference(Some(u)) == u.image
    ensures StoredReference(Some(u)) == "" <==>
      u.path == "" && u.imageUrl == "" && u.image == "" && u.filename == "" && u.file == ""
  {
    var c := [u.path, u.imageUrl, u.image, u.filename, u.file];
    if u.path != "" {
      Text.FirstNonEmptyPicksEarliest(c, 0);
    } else if u.imageUrl != "" {
      Text.FirstNonEmptyPicksEarliest(c, 1);
    } else if u.image != "" {
      Text.FirstNonEmptyPicksEarliest(c, 2);
    } else if u.filename != "" {
      Text.FirstNonEmptyPicksEarliest(c, 3);
    } else if u.file != "" {
      Text.FirstNonEmptyPicksEarliest(c, 4);
    }
  }

  /**
   * `normalizedAnalysis`: meal name, ingredients and calories from the
   * prediction with their defaults, the stored reference as image (the
   * prediction's own image only if no reference exists), the whole
   * prediction as `raw` and the capture's preview.
   */
  function NormalizedAnalysis(prediction: Option<MealContext.Prediction>, stored: string, previewUrl: string)
    : (a: MealContext.Analysis)
    ensures a.meal != ""
    ensures a.raw == prediction && a.previewUrl == previewUrl && a.imageUrl == ""
    ensures stored != "" ==> a.image == stored
    ensures prediction.None? ==>
      a.meal == DefaultMealName && a.ingredients == [] && a.calories == Meals.Undefined
    ensures prediction.Some? ==>
      var p := prediction.value;
      && (p.meal != "" ==> a.meal == p.meal)
      && (p.meal == "" && p.food != "" ==> a.meal == p.food)
      && (p.meal == "" && p.food == "" ==> a.meal == DefaultMealName)
      && a.ingredients == p.ingredients.GetOr([])
      && a.calories == p.calories
  {
    match prediction
    case None =>
      MealContext.Analysis(DefaultMealName, [], Meals.Undefined, stored, "", None, previewUrl)
    case Some(p) =>
      var meal := if p.meal != "" then p.meal else if p.food != "" then p.food else DefaultMealName;
      var image := Text.FirstNonEmpty([stored, p.image, p.imageUrl]);
      MealContext.Analysis(meal, p.ingredients.GetOr([]), p.calories, image, "", prediction, previewUrl)
  }

  /** The error text of a failed attempt: `err.message || default`. */
  function FailureMessage(message: string): (m: string)
    ensures m != ""
    ensures message != "" ==> m == message
    ensures message == "" ==> m == DefaultAnalysisError
  {
    if message != "" then message else DefaultAnalysisError
  }

  class ProcessingPage {
    var error: string
    var pendingRedirect: Option<Redirect>
    /** Navigations made at once, in order. */
    var navigations: seq<string>

    constructor ()
      ensures error == "" && pendingRedirect.None? && navigations == []
    {
      error := "";
      pendingRedirect := None;
      navigations := [];
    }

    /**
     * One run of the effect with the store's current capture. Without a
     * captured file it navigates home and sends nothing. Otherwise it uploads
     * the file; only with a stored reference does it ask for a prediction of
     * the same file; success stores the analysis and schedules /result after
     * 3000 ms; any failure sets the message, clears capture and analysis and
     * schedules home after 2500 ms.
     */
    method Run(store: MealContext.MealStore, upload: Api.Call<Option<UploadResult>>, predict: Api.Call<Option<MealContext.Prediction>>)
      returns (requests: seq<Request>)
      modifies this, store
      ensures store.meals == old(store.meals) && store.mealsLoading == old(store.mealsLoading)
      ensures store.mealsError == old(store.mealsError) && store.mounted == old(store.mounted)
      ensures old(store.capture).None? || old(store.capture).value.file.None? ==>
        && requests == []
        && navigations == old(navigations) + [HomePath]
        && error == old(error) && pendingRedirect == old(pendingRedirect)
        && store.capture == old(store.capture) && store.analysis == old(store.analysis)
      ensures old(store.capture).Some? && old(store.capture).value.file.Some? ==>
        var capture := old(store.capture).value;
        var file := capture.file.value;
        var reference := if upload.Succeeded? then StoredReference(upload.value) else "";
        && navigations == old(navigations)
        && |requests| >= 1 && requests[0] == UploadRequest(file)
        && (|requests| == 2 <==> reference != "")
        && (|requests| == 2 ==> requests[1] == PredictRequest(file))
        && |requests| <= 2
        && (if reference != "" && predict.Succeeded? then
              && store.analysis == Some(NormalizedAnalysis(predict.value, reference, capture.previewUrl))
              && store.capture == old(store.capture)
              && error == old(error)
              && pendingRedirect == Some(Redirect(ResultPath, 3000))
            else
              && store.capture.None? && store.analysis.None?
              && pendingRedirect == Some(Redirect(HomePath, 2500))
              && error == FailureMessage(
                   if upload.Failed? then Api.NormalizeError(upload.error).message
                   else if reference == "" then MissingReferenceError
                   else Api.NormalizeError(predict.error).message))
    {
      requests := [];
      var capture := store.capture;
      if capture.None? || capture.value.file.None? {
        navigations := navigations + [HomePath];
        return;
      }
      var file := capture.value.file.value;

      var failure: Option<string> := None;
      requests := requests + [UploadRequest(file)];
      match upload {
        case Failed(e) =>
          failure := Some(Api.NormalizeError(e).message);
        case Succeeded(uploadResult) =>
          var storedFilename := StoredReference(uploadResult);
          if storedFilename == "" {
            failure := Some(MissingReferenceError);
          } else {
            requests := requests + [PredictRequest(file)];
            match predict {
              case Failed(e) =>
                failure := Some(Api.NormalizeError(e).message);
              case Succeeded(prediction) =>
                store.SetAnalysis(Some(NormalizedAnalysis(prediction, storedFilename, capture.value.previewUrl)));
                pendingRedirect := Some(Redirect(ResultPath, 3000));
            }
          }
      }

      if failure.Some? {
        error := FailureMessage(failure.value);
        store.SetCapture(None);
        store.SetAnalysis(None);
        pendingRedirect := Some(Redirect(HomePath, 2500));
      }
    }

    /** The effect's cleanup: a pending redirect is cancelled. */
    method Teardown()
      modifies this
      ensures pendingRedirect.None?
      ensures error == old(error) && navigations == old(navigations)
    {
      pendingRedirect := None;
    }
  }
}
