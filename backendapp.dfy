/**
 * The cloud variant of the prediction endpoint (backend/app.py): what the
 * predictor returned is normalised to a name, whole calories, a list of
 * ingredients and nutrition facts, with a macro split estimated from the
 * calories when no facts were given; the route checks the upload, stores
 * it in S3 and answers with a fixed set of keys. S3, the predictor, the
 * clock and the uuid are inputs.
 */
module BackendApp {
  import opened Basics
  import Http
  import Predictor

  /** Python's `round` of n/d for d > 0: the nearest integer, halves going to the even neighbour. */
  function RoundHalfEven(n: int, d: int): (r: int)
    requires d > 0
    ensures 2 * (n - r * d) <= d && 2 * (r * d - n) <= d
    ensures 2 * (n - r * d) == d || 2 * (r * d - n) == d ==> r % 2 == 0
  {
    var q := n / d;
    var rem := n % d;
    assert n == q * d + rem && 0 <= rem < d;
    assert (q + 1) * d == q * d + d;
    if 2 * rem < d then q
    else if 2 * rem > d then q + 1
    else if q % 2 == 0 then q
    else q + 1
  }

  /** A positive multiple of a positive `d` is at least `d`. */
  lemma {:induction false} MultipleAtLeast(k: int, d: int)
    requires k >= 1 && d > 0
    ensures k * d >= d
    decreases k
  {
    if k > 1 {
      MultipleAtLeast(k - 1, d);
      assert k * d == (k - 1) * d + d;
    }
  }

  /** Two different multiples of `d` are at least `d` apart. */
  lemma MultiplesApart(r: int, other: int, d: int)
    requires d > 0 && other != r
    ensures other * d >= r * d + d || other * d <= r * d - d
  {
    if other > r {
      MultipleAtLeast(other - r, d);
      assert other * d == r * d + (other - r) * d;
    } else {
      MultipleAtLeast(r - other, d);
      assert r * d == other * d + (r - other) * d;
    }
  }

  /** The rounding is the nearest integer: no other integer is closer. */
  lemma RoundHalfEvenNearest(n: int, d: int, other: int)
    requires d > 0 && other != RoundHalfEven(n, d)
    ensures var r := RoundHalfEven(n, d);
      (if n - other * d >= 0 then n - other * d else other * d - n) >= (if n - r * d >= 0 then n - r * d else r * d - n)
  {
    MultiplesApart(RoundHalfEven(n, d), other, d);
  }

  /** An iterable value: a list, or another iterable turned into a list of its elements. */
  datatype Iterable = ListValue(elements: seq<string>) | OtherIterable(elements: seq<string>)

  /**
   * What the predictor returned: `food` ("" when missing or falsy), the
   * calories as `int()` gives them (0 when missing or falsy), the
   * ingredients and, when it is a dict, `nutrition_facts`.
   */
  datatype RawPrediction = RawPrediction(
    food: string, calories: int, ingredients: Option<Iterable>, nutrition: Option<map<string, int>>)

  datatype Normalised = Normalised(
    food: string, calories: int, ingredients: seq<string>, nutrition: map<string, int>)

  const DefaultFood := "Meal"

  /** The estimated macro split: half the calories from carbohydrates, a quarter each from protein and fat. */
  function MacroSplit(calories: int): (facts: map<string, int>)
    ensures "calories" in facts && "carbohydrates" in facts && "proteins" in facts && "fats" in facts
    ensures facts["calories"] == calories
    ensures facts["carbohydrates"] == if calories != 0 then RoundHalfEven(calories, 8) else 0
    ensures facts["proteins"] == if calories != 0 then RoundHalfEven(calories, 16) else 0
    ensures facts["fats"] == if calories != 0 then RoundHalfEven(calories, 36) else 0
  {
    map[
      "calories" := calories,
      "carbohydrates" := if calories != 0 then RoundHalfEven(calories, 8) else 0,
      "proteins" := if calories != 0 then RoundHalfEven(calories, 16) else 0,
      "fats" := if calories != 0 then RoundHalfEven(calories, 36) else 0]
  }

  /** `_normalise_prediction`. */
  function Normalise(raw: RawPrediction): (n: Normalised)
    ensures n.food == if raw.food != "" then raw.food else DefaultFood
    ensures n.calories == raw.calories
    ensures raw.ingredients.None? ==> n.ingredients == []
    ensures raw.ingredients.Some? ==> n.ingredients == raw.ingredients.value.elements
    ensures raw.nutrition.None? ==> n.nutrition == MacroSplit(raw.calories)
    ensures raw.nutrition.Some? && "calories" in raw.nutrition.value ==> n.nutrition == raw.nutrition.value
    ensures raw.nutrition.Some? && "calories" !in raw.nutrition.value ==>
      n.nutrition == raw.nutrition.value["calories" := raw.calories]
  {
    var ingredients := if raw.ingredients.Some? then raw.ingredients.value.elements else [];
    var nutrition := match raw.nutrition
      case None => MacroSplit(raw.calories)
      case Some(facts) => if "calories" in facts then facts else facts["calories" := raw.calories];
    Normalised(if raw.food != "" then raw.food else DefaultFood, raw.calories, ingredients, nutrition)
  }

  /** A normalised prediction fed back in. */
  function AsRaw(n: Normalised): RawPrediction {
    RawPrediction(n.food, n.calories, Some(ListValue(n.ingredients)), Some(n.nutrition))
  }

  /** Normalising is idempotent: a normalised prediction always names a food and carries its calories. */
  lemma NormaliseIdempotent(raw: RawPrediction)
    ensures Normalise(AsRaw(Normalise(raw))) == Normalise(raw)
  {
    var n := Normalise(raw);
    assert "calories" in n.nutrition;
  }

  /** Nutrition facts always state calories; the given facts keep their calories when they had them. */
  lemma NutritionHasCalories(raw: RawPrediction)
    ensures "calories" in Normalise(raw).nutrition
    ensures raw.nutrition.None? || "calories" !in raw.nutrition.value ==> Normalise(raw).nutrition["calories"] == raw.calories
  {
  }

  /** Zero calories give zero of every macro; positive calories never give negative ones. */
  lemma MacroSigns(calories: int)
    ensures calories == 0 ==> MacroSplit(calories) == map["calories" := 0, "carbohydrates" := 0, "proteins" := 0, "fats" := 0]
    ensures calories > 0 ==>
      MacroSplit(calories)["carbohydrates"] >= 0 && MacroSplit(calories)["proteins"] >= 0 && MacroSplit(calories)["fats"] >= 0
  {
  }

  /**
   * Worked example, for documentation: halves round to the even neighbour,
   * so 12 kcal give 2 g of carbohydrates and 20 kcal give 2 g too. The
   * statements for every input are MacroSplit's contract and MacroSigns.
   */
  lemma HalvesGoToEven()
    ensures MacroSplit(12)["carbohydrates"] == 2
    ensures MacroSplit(20)["carbohydrates"] == 2
    ensures MacroSplit(750)["carbohydrates"] == 94 && MacroSplit(750)["proteins"] == 47 && MacroSplit(750)["fats"] == 21
  {
  }

  /** A predictor's own result has neither ingredients nor facts. */
  function FromPredictor(p: Predictor.Prediction): RawPrediction {
    RawPrediction(p.food, p.calories, None, None)
  }

  /** So the endpoint always estimates the macros, and a predicted meal keeps its name. */
  lemma PredictorOutputGetsMacroSplit(p: Predictor.Prediction)
    ensures Normalise(FromPredictor(p)).nutrition == MacroSplit(p.calories)
    ensures Normalise(FromPredictor(p)).ingredients == []
    ensures p.food != "" ==> Normalise(FromPredictor(p)).food == p.food
  {
  }

  /** The success body: exactly these four keys. */
  datatype PredictPayload = PredictPayload(
    imageUrl: string, ingredients: seq<string>, nutritionFacts: map<string, int>, timestamp: string)

  /** The public URL `_upload_to_s3` returns. */
  function S3Url(bucket: string, name: string): string
  {
    "https://" + bucket + ".s3.amazonaws.com/" + name
  }

  /**
   * How `upload_fileobj` ended: the object is stored, it failed with a
   * `BotoCoreError` or `NoCredentialsError` (which the route catches), or it
   * raised anything else (which escapes the route).
   */
  datatype S3Upload = Uploaded | BotoFailure(details: string) | OtherFailure(message: string)

  /**
   * The `/predict` route. `upload` is how the S3 upload ended, `prediction`
   * what the predictor returned or the text of its exception, `hex` the uuid
   * and `createdAt` the timestamp.
   */
  function PredictRoute(files: map<string, Http.UploadedFile>, hex: string, bucket: string, upload: S3Upload,
                        prediction: Result<RawPrediction, string>, createdAt: string): (reply: Http.Reply<PredictPayload>)
    ensures Http.UploadKey(files) !in files || files[Http.UploadKey(files)].filename == "" ==>
      reply == Http.Failure(400, "No image provided", "")
    ensures Http.UploadKey(files) in files && files[Http.UploadKey(files)].filename != "" && upload.BotoFailure? ==>
      reply == Http.Failure(502, "Cloud upload failed", upload.details)
    ensures Http.UploadKey(files) in files && files[Http.UploadKey(files)].filename != "" && upload.OtherFailure? ==>
      reply == Http.Unhandled(upload.message)
    ensures Http.UploadKey(files) in files && files[Http.UploadKey(files)].filename != "" && upload.Uploaded? && prediction.Err? ==>
      reply == Http.Failure(500, "Prediction failed", prediction.error)
    ensures reply.Unhandled? <==>
      Http.UploadKey(files) in files && files[Http.UploadKey(files)].filename != "" && upload.OtherFailure?
    ensures reply.Success? <==>
      Http.UploadKey(files) in files && files[Http.UploadKey(files)].filename != "" && upload.Uploaded? && prediction.Ok?
    ensures reply.Success? ==>
      var n := Normalise(prediction.value);
      reply == Http.Success(200, PredictPayload(S3Url(bucket, hex + ".jpg"), n.ingredients, n.nutrition, createdAt))
  {
    var key := Http.UploadKey(files);
    if key !in files || files[key].filename == "" then Http.Failure(400, "No image provided", "")
    else match upload
      case BotoFailure(details) => Http.Failure(502, "Cloud upload failed", details)
      case OtherFailure(message) => Http.Unhandled(message)
      case Uploaded =>
        match prediction
        case Err(details) => Http.Failure(500, "Prediction failed", details)
        case Ok(raw) =>
          var n := Normalise(raw);
          Http.Success(200, PredictPayload(S3Url(bucket, hex + ".jpg"), n.ingredients, n.nutrition, createdAt))
  }

  /** A "photo" part wins even when its file name is empty and an "image" part is fine. */
  lemma EmptyPhotoHidesImage(files: map<string, Http.UploadedFile>, hex: string, bucket: string, upload: S3Upload,
                             prediction: Result<RawPrediction, string>, createdAt: string)
    requires "photo" in files && files["photo"].filename == ""
    ensures PredictRoute(files, hex, bucket, upload, prediction, createdAt) == Http.Failure(400, "No image provided", "")
  {
  }
}
