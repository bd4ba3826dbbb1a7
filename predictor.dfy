/**
 * The meal predictor (backend/api/ml_predict.py): a table from classifier
 * labels to meals, a 450-kcal default for unknown labels, a random table
 * entry when the models are missing, and load-once caches for the feature
 * extractor and the classifier. The models, the image and the random
 * choice are inputs.
 */
module Predictor {
  import opened Basics
  import Text

  datatype MealInfo = MealInfo(food: string, calories: int)

  /** `LABEL_TO_MEAL`. */
  const LabelToMeal: map<string, MealInfo> := map[
    "pasta" := MealInfo("Pasta with Tomato Sauce", 750),
    "salad" := MealInfo("Garden Salad", 320),
    "omelette" := MealInfo("Cheese Omelette", 400),
    "burger" := MealInfo("Beef Burger", 820),
    "sushi" := MealInfo("Salmon Sushi Roll", 410)]

  /** `list(LABEL_TO_MEAL.keys())`, in the table's order. */
  const Labels := ["pasta", "salad", "omelette", "burger", "sushi"]

  const UnknownCalories := 450

  /** The labels listed are exactly the table's keys. */
  lemma LabelsAreKeys()
    ensures forall k :: 0 <= k < |Labels| ==> Labels[k] in LabelToMeal
    ensures forall l :: l in LabelToMeal ==> l in Labels
  {
  }

  /** A character Python's `str.title` treats as cased (ASCII letters). */
  predicate IsLetter(c: char) {
    Text.IsAsciiUpper(c) || Text.IsAsciiLower(c)
  }

  /** `str.title` on the rest of a string, where `afterLetter` says whether a letter precedes it. */
  function TitleAfter(afterLetter: bool, s: string): (r: string)
    ensures |r| == |s|
    decreases |s|
  {
    if s == [] then []
    else
      var head := if !IsLetter(s[0]) then s[0] else if afterLetter then Text.LowerChar(s[0]) else Text.UpperChar(s[0]);
      [head] + TitleAfter(IsLetter(s[0]), s[1..])
  }

  predicate PrecededByLetter(afterLetter: bool, s: string, i: nat)
    requires i < |s|
  {
    if i == 0 then afterLetter else IsLetter(s[i - 1])
  }

  /** A letter is uppercased when no letter precedes it and lowercased otherwise; other characters stay. */
  lemma {:induction false} TitleAfterAt(afterLetter: bool, s: string, i: nat)
    requires i < |s|
    ensures TitleAfter(afterLetter, s)[i] ==
      if !IsLetter(s[i]) then s[i]
      else if PrecededByLetter(afterLetter, s, i) then Text.LowerChar(s[i])
      else Text.UpperChar(s[i])
    decreases i
  {
    if i > 0 {
      TitleAfterAt(IsLetter(s[0]), s[1..], i - 1);
      assert s[1..][i - 1] == s[i];
      if i > 1 {
        assert s[1..][i - 2] == s[i - 1];
      }
    }
  }

  /** Whether position `i` of `s` follows a letter. */
  predicate AfterLetter(s: string, i: nat)
    requires i < |s|
  {
    i > 0 && IsLetter(s[i - 1])
  }

  /** `str.title`: every letter uppercased at the start of a run of letters and lowercased inside it. */
  function TitleCase(s: string): (r: string)
    ensures |r| == |s|
    ensures forall i :: 0 <= i < |s| ==>
      r[i] == if !IsLetter(s[i]) then s[i] else if AfterLetter(s, i) then Text.LowerChar(s[i]) else Text.UpperChar(s[i])
  {
    var r := TitleAfter(false, s);
    assert forall i :: 0 <= i < |s| ==>
      r[i] == if !IsLetter(s[i]) then s[i] else if AfterLetter(s, i) then Text.LowerChar(s[i]) else Text.UpperChar(s[i])
    by {
      forall i | 0 <= i < |s|
        ensures r[i] == if !IsLetter(s[i]) then s[i] else if AfterLetter(s, i) then Text.LowerChar(s[i]) else Text.UpperChar(s[i])
      {
        TitleAfterAt(false, s, i);
        if i == 0 {
          assert !AfterLetter(s, i);
        } else {
          assert AfterLetter(s, i) <==> IsLetter(s[i - 1]);
        }
      }
    }
    r
  }

  /** Title-casing changes letter case only, and doing it twice is doing it once. */
  lemma TitleCaseIdempotent(s: string)
    ensures TitleCase(TitleCase(s)) == TitleCase(s)
    ensures Text.Lower(TitleCase(s)) == Text.Lower(s)
  {
    var r := TitleCase(s);
    assert forall i :: 0 <= i < |s| ==> (IsLetter(r[i]) <==> IsLetter(s[i]));
    forall i | 0 <= i < |s|
      ensures TitleCase(r)[i] == r[i]
    {
      assert AfterLetter(r, i) <==> AfterLetter(s, i);
    }
  }

  /** The meal of a classifier label: the table's entry for it in any case, else its readable form at 450 kcal. */
  function MealForLabel(rawLabel: string): (m: MealInfo)
    ensures Text.Lower(rawLabel) in LabelToMeal ==> m == LabelToMeal[Text.Lower(rawLabel)]
    ensures Text.Lower(rawLabel) !in LabelToMeal ==>
      m == MealInfo(TitleCase(Text.ReplaceChar(rawLabel, '_', ' ')), UnknownCalories)
  {
    var key := Text.Lower(rawLabel);
    if key in LabelToMeal then LabelToMeal[key]
    else MealInfo(TitleCase(Text.ReplaceChar(rawLabel, '_', ' ')), UnknownCalories)
  }

  /** Labels that differ only in letter case give the same meal. */
  lemma LabelCaseIgnored(a: string, b: string)
    requires Text.Lower(a) == Text.Lower(b) && Text.Lower(a) in LabelToMeal
    ensures MealForLabel(a) == MealForLabel(b)
  {
  }

  /** The name made for an unknown label has no underscores and keeps the label's letters. */
  lemma UnknownLabelName(rawLabel: string)
    requires Text.Lower(rawLabel) !in LabelToMeal
    ensures var food := MealForLabel(rawLabel).food;
      && |food| == |rawLabel|
      && (forall i :: 0 <= i < |food| ==> food[i] != '_')
      && Text.Lower(food) == Text.Lower(Text.ReplaceChar(rawLabel, '_', ' '))
  {
    TitleCaseIdempotent(Text.ReplaceChar(rawLabel, '_', ' '));
  }

  /** A prediction: the meal, and the failure text when it is a fallback after an exception. */
  datatype Prediction = Prediction(food: string, calories: int, error: Option<string>)

  /** `_random_prediction` with the choice given: a copy of one table entry. */
  function RandomPrediction(choice: nat): (p: Prediction)
    requires choice < |Labels|
    ensures Labels[choice] in LabelToMeal
    ensures MealInfo(p.food, p.calories) == LabelToMeal[Labels[choice]] && p.error.None?
  {
    var m := LabelToMeal[Labels[choice]];
    Prediction(m.food, m.calories, None)
  }

  /** What running the models on the image gives: a raw label, or an exception with its text. */
  datatype Inference = Label(raw: string) | Raised(message: string)

  /** The result of `predict_calories` once the models are loaded or known to be missing. */
  function PredictionOutcome(modelsReady: bool, imageReady: bool, inference: Inference, choice: nat): (p: Prediction)
    requires choice < |Labels|
    ensures !modelsReady || !imageReady ==> p == RandomPrediction(choice)
    ensures modelsReady && imageReady && inference.Raised? ==>
      p == RandomPrediction(choice).(error := Some(inference.message))
    ensures modelsReady && imageReady && inference.Label? ==>
      var m := MealForLabel(inference.raw);
      p == Prediction(m.food, m.calories, None)
  {
    if !modelsReady || !imageReady then RandomPrediction(choice)
    else match inference
      case Raised(message) => RandomPrediction(choice).(error := Some(message))
      case Label(raw) =>
        var m := MealForLabel(raw);
        Prediction(m.food, m.calories, None)
  }

  /**
   * Whatever happens, a prediction is a table entry or, for a label the
   * table does not know, a 450-kcal meal; a prediction with an error is
   * always a table entry.
   */
  lemma PredictionFromTableOrDefault(modelsReady: bool, imageReady: bool, inference: Inference, choice: nat)
    requires choice < |Labels|
    ensures var p := PredictionOutcome(modelsReady, imageReady, inference, choice);
      && (MealInfo(p.food, p.calories) in LabelToMeal.Values || p.calories == UnknownCalories)
      && (p.error.Some? ==> MealInfo(p.food, p.calories) in LabelToMeal.Values)
  {
    var p := PredictionOutcome(modelsReady, imageReady, inference, choice);
    var r := RandomPrediction(choice);
    assert MealInfo(r.food, r.calories) == LabelToMeal[Labels[choice]];
    if modelsReady && imageReady && inference.Label? {
      var key := Text.Lower(inference.raw);
      if key in LabelToMeal {
        assert MealInfo(p.food, p.calories) == LabelToMeal[key];
      }
    }
  }

  /** An opaque handle on a loaded model. */
  datatype Model = Model(id: nat)

  /**
   * The module's caches: `_FEATURE_EXTRACTOR`, `_CLASSIFIER` and
   * `_CLASSIFIER_LOAD_ATTEMPTED`, with whether TensorFlow and joblib
   * imported.
   */
  class ModelCache {
    const tensorflowAvailable: bool
    const joblibAvailable: bool
    var featureExtractor: Option<Model>
    var classifier: Option<Model>
    var classifierLoadAttempted: bool
    /** How many times a classifier load was started. */
    ghost var classifierLoads: nat

    ghost predicate Valid()
      reads this
    {
      && classifierLoads == (if classifierLoadAttempted then 1 else 0)
      && (classifier.Some? ==> classifierLoadAttempted)
    }

    constructor (tensorflow: bool, joblib: bool)
      ensures Valid()
      ensures tensorflowAvailable == tensorflow && joblibAvailable == joblib
      ensures featureExtractor.None? && classifier.None? && !classifierLoadAttempted
    {
      tensorflowAvailable := tensorflow;
      joblibAvailable := joblib;
      featureExtractor := None;
      classifier := None;
      classifierLoadAttempted := false;
      classifierLoads := 0;
    }

    /**
     * `_load_feature_extractor`: the cached model once set; otherwise, when
     * TensorFlow is there, the outcome of building MobileNetV2 (`built`):
     * the model, cached, or the text of the exception it raised, which
     * leaves the cache empty and propagates to the caller.
     */
    method LoadFeatureExtractor(built: Result<Model, string>) returns (m: Result<Option<Model>, string>)
      requires Valid()
      modifies this
      ensures Valid()
      ensures old(featureExtractor).Some? ==> featureExtractor == old(featureExtractor) && m == Ok(featureExtractor)
      ensures old(featureExtractor).None? && !tensorflowAvailable ==> featureExtractor.None? && m == Ok(None)
      ensures old(featureExtractor).None? && tensorflowAvailable && built.Ok? ==>
        featureExtractor == Some(built.value) && m == Ok(featureExtractor)
      ensures old(featureExtractor).None? && tensorflowAvailable && built.Err? ==>
        featureExtractor.None? && m == Err(built.error)
      ensures classifier == old(classifier) && classifierLoadAttempted == old(classifierLoadAttempted)
      ensures classifierLoads == old(classifierLoads)
    {
      if featureExtractor.Some? {
        return Ok(featureExtractor);
      }
      if !tensorflowAvailable {
        return Ok(None);
      }
      match built {
        case Err(message) =>
          m := Err(message);
        case Ok(model) =>
          featureExtractor := Some(model);
          m := Ok(featureExtractor);
      }
    }

    /**
     * `_load_classifier`: after the first call the cached value, possibly
     * none, is returned and nothing changes; the first call marks the
     * attempt and keeps what loading gave (`loaded`, none when it raised),
     * or none when joblib or the file is missing.
     */
    method LoadClassifier(fileExists: bool, loaded: Option<Model>) returns (m: Option<Model>)
      requires Valid()
      modifies this
      ensures Valid() && m == classifier && classifierLoadAttempted
      ensures old(classifierLoadAttempted) ==>
        classifier == old(classifier) && classifierLoads == old(classifierLoads)
      ensures !old(classifierLoadAttempted) ==>
        classifier == if joblibAvailable && fileExists then loaded else None
      ensures classifierLoads <= 1
      ensures featureExtractor == old(featureExtractor)
    {
      if classifier.Some? || classifierLoadAttempted {
        return classifier;
      }
      classifierLoadAttempted := true;
      classifierLoads := classifierLoads + 1;
      if !joblibAvailable {
        return None;
      }
      if !fileExists {
        return None;
      }
      classifier := loaded;
      m := classifier;
    }

    /**
     * `predict_calories`: load both models (from cache after the first
     * time), then predict from the image, falling back to the random entry
     * `choice` when a model or the image is missing or inference raises.
     * When building the feature extractor raises, the classifier is never
     * loaded and the random entry comes back with the exception's text.
     */
    method PredictCalories(built: Result<Model, string>, fileExists: bool, loaded: Option<Model>,
                           inference: Inference, choice: nat) returns (p: Prediction)
      requires Valid() && choice < |Labels|
      modifies this
      ensures Valid()
      ensures old(featureExtractor).None? && tensorflowAvailable && built.Err? ==>
        && p == RandomPrediction(choice).(error := Some(built.error))
        && featureExtractor.None? && classifier == old(classifier)
        && classifierLoadAttempted == old(classifierLoadAttempted)
      ensures !(old(featureExtractor).None? && tensorflowAvailable && built.Err?) ==>
        && featureExtractor ==
           (if old(featureExtractor).Some? then old(featureExtractor)
            else if tensorflowAvailable then Some(built.value) else None)
        && classifierLoadAttempted
        && classifier ==
           (if old(classifierLoadAttempted) then old(classifier)
            else if joblibAvailable && fileExists then loaded else None)
        && p == PredictionOutcome(featureExtractor.Some? && classifier.Some?, tensorflowAvailable, inference, choice)
    {
      var extractor := LoadFeatureExtractor(built);
      if extractor.Err? {
        return RandomPrediction(choice).(error := Some(extractor.error));
      }
      var model := LoadClassifier(fileExists, loaded);
      if extractor.value.None? || model.None? {
        return RandomPrediction(choice);
      }
      if !tensorflowAvailable {
        return RandomPrediction(choice);
      }
      match inference {
        case Raised(message) =>
          p := RandomPrediction(choice).(error := Some(message));
        case Label(raw) =>
          var meal := MealForLabel(raw);
          p := Prediction(meal.food, meal.calories, None);
      }
    }
  }
}
