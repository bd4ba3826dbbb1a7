/**
 * The derivations of the food-log dashboard (src/pages/FoodLogDashboard.jsx):
 * the three most recent meals with their display defaults, and the history
 * message. The page's own copy of `computeWeeklySeries` is
 * `Meals.ComputeWeeklySeries` with the current time as reference date.
 */
module Dashboard {
  import opened Basics
  import Text
  import Meals
  import Api

  /** `item.id`, or the made-up `${name || "meal"}-${index}` key. */
  datatype RowId = GivenId(value: int) | MadeId(text: string)

  /** `item.calories ?? "-"`: the dash only for null and undefined. */
  datatype CalorieCell = Dash | Amount(value: Meals.Calories)

  datatype RecentMeal = RecentMeal(
    id: RowId,
    name: string,
    calories: CalorieCell,
    date: string,
    sortTime: int,
    image: string)

  function CalorieCellOf(c: Meals.Calories): (cell: CalorieCell)
    ensures cell.Dash? <==> c.Undefined? || c.Null?
    ensures cell.Amount? ==> cell.value == c
  {
    if c.Undefined? || c.Null? then Dash else Amount(c)
  }

  function RowIdOf(m: Meals.MealRecord, index: nat): (id: RowId)
    ensures m.id.Some? && m.id.value != 0 ==> id == GivenId(m.id.value)
    ensures m.id.None? || m.id.value == 0 ==>
      id == MadeId((if m.name != "" then m.name else "meal") + "-" + Text.NatToString(index))
  {
    if m.id.Some? && m.id.value != 0 then GivenId(m.id.value)
    else MadeId((if m.name != "" then m.name else "meal") + "-" + Text.NatToString(index))
  }

  /** The parsed timestamp of the record's date, or minus its position. */
  function SortTime(m: Meals.MealRecord, index: nat): (t: int)
    ensures Meals.ParseMealDate(Meals.RecordDate(m)).Some? ==>
      t == Meals.Time(Meals.ParseMealDate(Meals.RecordDate(m)).value)
    ensures Meals.ParseMealDate(Meals.RecordDate(m)).None? ==> t == -(index as int)
  {
    match Meals.ParseMealDate(Meals.RecordDate(m))
    case Some(date) => Meals.Time(date)
    case None => -(index as int)
  }

  /** The display record of the `index`-th meal; `format` stands for `toLocaleDateString`. */
  function ToRecent(m: Meals.MealRecord, index: nat, format: Meals.Instant -> string): (r: RecentMeal)
    ensures r.id == RowIdOf(m, index)
    ensures r.name == (if m.name != "" then m.name else "Meal")
    ensures r.calories == CalorieCellOf(m.calories)
    ensures r.date == Meals.FormatMealDate(Meals.RecordDate(m), format)
    ensures r.sortTime == SortTime(m, index)
    ensures r.image == Api.ResolveBackendImage(Text.FirstNonEmpty([m.image, m.imageUrl, m.filename]))
  {
    RecentMeal(
      RowIdOf(m, index),
      if m.name != "" then m.name else "Meal",
      CalorieCellOf(m.calories),
      Meals.FormatMealDate(Meals.RecordDate(m), format),
      SortTime(m, index),
      Api.ResolveBackendImage(Text.FirstNonEmpty([m.image, m.imageUrl, m.filename])))
  }

  // ---- The stable descending sort ----

  /** A display record together with its position in the input. */
  datatype Ranked = Ranked(meal: RecentMeal, index: nat)

  /** The order a stable sort by descending `sortTime` produces. */
  predicate Before(a: Ranked, b: Ranked) {
    a.meal.sortTime > b.meal.sortTime || (a.meal.sortTime == b.meal.sortTime && a.index < b.index)
  }

  predicate Ordered(s: seq<Ranked>) {
    forall i, j :: 0 <= i < j < |s| ==> Before(s[i], s[j])
  }

  predicate IndicesIncreasing(s: seq<Ranked>) {
    forall i, j :: 0 <= i < j < |s| ==> s[i].index < s[j].index
  }

  /** Places `x` behind every element at least as recent. */
  function Insert(s: seq<Ranked>, x: Ranked): (r: seq<Ranked>)
    ensures multiset(r) == multiset(s) + multiset{x}
    ensures |r| == |s| + 1
  {
    if s == [] then [x]
    else if x.meal.sortTime > s[0].meal.sortTime then [x] + s
    else
      assert s == [s[0]] + s[1..];
      [s[0]] + Insert(s[1..], x)
  }

  /** A list headed by an element that precedes all the rest, which are ordered, is ordered. */
  lemma ConsOrdered(h: Ranked, t: seq<Ranked>)
    requires Ordered(t)
    requires forall y :: y in t ==> Before(h, y)
    ensures Ordered([h] + t)
  {
    var r := [h] + t;
    forall i, j | 0 <= i < j < |r| ensures Before(r[i], r[j]) {
      assert r[j] == t[j - 1];
      if i > 0 {
        assert r[i] == t[i - 1];
      } else {
        assert r[j] in t;
      }
    }
  }

  /** The tail of an ordered list is ordered and follows its head. */
  lemma OrderedTail(s: seq<Ranked>)
    requires Ordered(s) && s != []
    ensures Ordered(s[1..])
    ensures forall y :: y in s[1..] ==> Before(s[0], y)
  {
    assert forall i :: 0 <= i < |s| - 1 ==> s[1..][i] == s[i + 1];
    forall y | y in s[1..] ensures Before(s[0], y) {
      var j :| 0 <= j < |s[1..]| && s[1..][j] == y;
      assert s[j + 1] == y;
    }
  }

  lemma InsertMembers(s: seq<Ranked>, x: Ranked)
    ensures forall y :: y in Insert(s, x) ==> y in s || y == x
  {
    forall y | y in Insert(s, x) ensures y in s || y == x {
      assert y in multiset(Insert(s, x));
    }
  }

  lemma {:induction false} InsertOrdered(s: seq<Ranked>, x: Ranked)
    requires Ordered(s)
    requires forall y :: y in s ==> y.index < x.index
    ensures Ordered(Insert(s, x))
    decreases |s|
  {
    if s == [] {
    } else {
      OrderedTail(s);
      if x.meal.sortTime > s[0].meal.sortTime {
        assert forall y :: y in s ==> y == s[0] || y in s[1..] by {
          assert s == [s[0]] + s[1..];
        }
        ConsOrdered(x, s);
      } else {
        assert forall y :: y in s[1..] ==> y in s;
        InsertOrdered(s[1..], x);
        InsertMembers(s[1..], x);
        ConsOrdered(s[0], Insert(s[1..], x));
      }
    }
  }

  /** Insertion sort: a stable sort by descending `sortTime`. */
  function Sort(s: seq<Ranked>): (r: seq<Ranked>)
    ensures multiset(r) == multiset(s)
    ensures |r| == |s|
  {
    if s == [] then []
    else
      assert s == s[..|s| - 1] + [s[|s| - 1]];
      Insert(Sort(s[..|s| - 1]), s[|s| - 1])
  }

  lemma {:induction false} SortOrdered(s: seq<Ranked>)
    requires IndicesIncreasing(s)
    ensures Ordered(Sort(s))
    decreases |s|
  {
    if s != [] {
      var init := s[..|s| - 1];
      var last := s[|s| - 1];
      assert IndicesIncreasing(init);
      SortOrdered(init);
      forall y | y in Sort(init) ensures y.index < last.index {
        assert y in multiset(Sort(init));
        assert y in init;
      }
      InsertOrdered(Sort(init), last);
    }
  }

  /** The display records paired with their positions, in input order. */
  function RankedMeals(meals: seq<Meals.MealRecord>, format: Meals.Instant -> string): (r: seq<Ranked>)
    ensures |r| == |meals|
    ensures forall i :: 0 <= i < |r| ==> r[i] == Ranked(ToRecent(meals[i], i, format), i)
    ensures IndicesIncreasing(r)
  {
    seq(|meals|, i requires 0 <= i < |meals| => Ranked(ToRecent(meals[i], i, format), i))
  }

  /** The sorted ranking from which the three shown meals are taken. */
  function Ranking(meals: seq<Meals.MealRecord>, format: Meals.Instant -> string): (r: seq<Ranked>)
    ensures Ordered(r)
    ensures multiset(r) == multiset(RankedMeals(meals, format))
  {
    SortOrdered(RankedMeals(meals, format));
    Sort(RankedMeals(meals, format))
  }

  function Min(a: int, b: int): int { if a <= b then a else b }

  /**
   * `recentMeals`, with `meals` None when it is not an array: [] for no
   * records, otherwise the first three of the ranking.
   */
  function RecentMeals(meals: Option<seq<Meals.MealRecord>>, format: Meals.Instant -> string): (r: seq<RecentMeal>)
    ensures meals.None? ==> r == []
    ensures meals.Some? ==> |r| == Min(3, |meals.value|)
    ensures meals.Some? ==> forall i :: 0 <= i < |r| ==> r[i] == Ranking(meals.value, format)[i].meal
  {
    if meals.None? || meals.value == [] then []
    else
      var ranking := Ranking(meals.value, format);
      seq(Min(3, |ranking|), i requires 0 <= i < Min(3, |ranking|) => ranking[i].meal)
  }

  /** The shown meals run from the most recent down; equal times keep input order. */
  lemma RecentMealsOrdered(meals: seq<Meals.MealRecord>, format: Meals.Instant -> string, i: nat, j: nat)
    requires i < j < |RecentMeals(Some(meals), format)|
    ensures var r := RecentMeals(Some(meals), format);
      r[i].sortTime >= r[j].sortTime
    ensures var ranking := Ranking(meals, format);
      ranking[i].meal.sortTime == ranking[j].meal.sortTime ==> ranking[i].index < ranking[j].index
  {
    var ranking := Ranking(meals, format);
    assert Before(ranking[i], ranking[j]);
  }

  /** Every record shown is one of the input records, in its display form. */
  lemma RecentMealsComeFromInput(meals: seq<Meals.MealRecord>, format: Meals.Instant -> string, i: nat)
    requires i < |RecentMeals(Some(meals), format)|
    ensures exists k :: 0 <= k < |meals| && RecentMeals(Some(meals), format)[i] == ToRecent(meals[k], k, format)
  {
    var ranking := Ranking(meals, format);
    var ranked := RankedMeals(meals, format);
    assert ranking[i] in multiset(ranked);
    var k :| 0 <= k < |ranked| && ranked[k] == ranking[i];
  }

  /** In an ordered ranking, an entry more recent than the n-th lies among the first n. */
  lemma MoreRecentInPrefix(ranking: seq<Ranked>, n: nat, x: Ranked) returns (p: nat)
    requires Ordered(ranking) && 0 < n <= |ranking|
    requires x in ranking && x.meal.sortTime > ranking[n - 1].meal.sortTime
    ensures p < n && ranking[p] == x
  {
    p :| 0 <= p < |ranking| && ranking[p] == x;
  }

  /** A record strictly more recent than the last one shown is itself shown. */
  lemma MoreRecentMealIsShown(meals: seq<Meals.MealRecord>, format: Meals.Instant -> string, k: nat)
    requires k < |meals|
    requires var r := RecentMeals(Some(meals), format);
      ToRecent(meals[k], k, format).sortTime > r[|r| - 1].sortTime
    ensures exists i :: (0 <= i < |RecentMeals(Some(meals), format)| &&
      RecentMeals(Some(meals), format)[i] == ToRecent(meals[k], k, format))
  {
    var r := RecentMeals(Some(meals), format);
    var ranking := Ranking(meals, format);
    var x := RankedMeals(meals, format)[k];
    assert x in multiset(ranking);
    var p := MoreRecentInPrefix(ranking, |r|, x);
    assert r[p] == ranking[p].meal;
  }

  /** Undated records are ranked by minus their position, so they keep their input order. */
  lemma UndatedKeepInputOrder(meals: seq<Meals.MealRecord>, format: Meals.Instant -> string, a: nat, b: nat)
    requires a < b < |meals|
    requires Meals.ParseMealDate(Meals.RecordDate(meals[a])).None?
    requires Meals.ParseMealDate(Meals.RecordDate(meals[b])).None?
    ensures Before(Ranked(ToRecent(meals[a], a, format), a), Ranked(ToRecent(meals[b], b, format), b))
  {
  }

  /**
   * Worked example, for documentation: a calorie value of 0 is shown as 0,
   * not as the dash. The statement for every input is CalorieCellOf's contract.
   */
  lemma ZeroCaloriesShown()
    ensures CalorieCellOf(Meals.Finite(0.0)) == Amount(Meals.Finite(0.0))
  {
  }

  const NoMealData := "No meal data available."

  /** `historyError`: the store's error first, then the empty-history notice once loading is over. */
  function HistoryError(mealsError: string, mealsLoading: bool, recentCount: nat): (r: string)
    ensures mealsError != "" ==> r == mealsError
    ensures mealsError == "" ==> (r == NoMealData <==> !mealsLoading && recentCount == 0)
    ensures mealsError == "" ==> (r == "" <==> mealsLoading || recentCount > 0)
  {
    if mealsError != "" then mealsError
    else if !mealsLoading && recentCount == 0 then NoMealData
    else ""
  }
}
