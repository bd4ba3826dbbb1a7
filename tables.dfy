/**
 * The calorie history table (src/pages/dashboard/tables.jsx): one row per
 * stored meal, the placeholder row, and the refresh requested while the
 * store holds no meals.
 */
module Tables {
  import opened Basics
  import Text
  import Meals
  import Api
  import MealContext

  /** A table row; `image` is None where the source would fall back to null. */
  datatype Row = Row(name: string, calories: Meals.Calories, date: Meals.DateField, image: Option<string>)

  /** `resolveBackendImage(meal.image || meal.image_url || meal.filename) || null`. */
  function RowImage(m: Meals.MealRecord): (image: Option<string>)
    ensures image == Some(Api.ResolveBackendImage(Text.FirstNonEmpty([m.image, m.imageUrl, m.filename])))
  {
    var url := Api.ResolveBackendImage(Text.FirstNonEmpty([m.image, m.imageUrl, m.filename]));
    if url != "" then Some(url) else None
  }

  /** `rows`: the meals in their order, with name, calories and date copied unchanged. */
  function Rows(meals: seq<Meals.MealRecord>): (rows: seq<Row>)
    ensures |rows| == |meals|
    ensures forall i :: 0 <= i < |meals| ==>
      rows[i].name == meals[i].name && rows[i].calories == meals[i].calories &&
      rows[i].date == meals[i].date && rows[i].image == RowImage(meals[i])
  {
    if meals == [] then []
    else [Row(meals[0].name, meals[0].calories, meals[0].date, RowImage(meals[0]))] + Rows(meals[1..])
  }

  /** Every row has an image, so the "No Image" cell never shows. */
  lemma EveryRowHasImage(meals: seq<Meals.MealRecord>, i: nat)
    requires i < |meals|
    ensures Rows(meals)[i].image.Some? && Rows(meals)[i].image.value != ""
  {
  }

  /** The rows of two lists of meals are the rows of each, one after the other. */
  lemma {:induction false} RowsAppend(a: seq<Meals.MealRecord>, b: seq<Meals.MealRecord>)
    ensures Rows(a + b) == Rows(a) + Rows(b)
    decreases |a|
  {
    if a == [] {
      assert a + b == b;
    } else {
      assert (a + b)[1..] == a[1..] + b;
      RowsAppend(a[1..], b);
    }
  }

  const LoadingText := "Loading calorie history..."
  const EmptyText := "No meals saved yet."

  /** The placeholder row: shown only without rows, with the loading or the empty text. */
  function Placeholder(rowCount: nat, mealsLoading: bool): (text: Option<string>)
    ensures rowCount > 0 <==> text.None?
    ensures rowCount == 0 && mealsLoading ==> text == Some(LoadingText)
    ensures rowCount == 0 && !mealsLoading ==> text == Some(EmptyText)
  {
    if rowCount > 0 then None
    else if mealsLoading then Some(LoadingText)
    else Some(EmptyText)
  }

  /**
   * The effect on `meals.length`: an empty store is refreshed and a failure
   * of that refresh is dropped; a non-empty store is left alone.
   */
  method RefreshWhenEmpty(store: MealContext.MealStore, fetch: MealContext.Fetch) returns (refreshed: bool)
    modifies store
    ensures refreshed <==> old(store.meals) == []
    ensures !refreshed ==> unchanged(store)
    ensures refreshed && store.mounted ==>
      store.meals == (match MealContext.RefreshOutcome(fetch) case Ok(data) => data case Err(_) => [])
  {
    refreshed := store.meals == [];
    if refreshed {
      var _ := store.RefreshMeals(fetch);
    }
  }
}
