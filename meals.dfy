/**
 * Meal records and the weekly calorie series (src/utils/meals.js).
 *
 * Dates are local calendar days numbered from 1970-01-01 (a Thursday), plus
 * the milliseconds into that day; `new Date(text)` is abstracted: a date
 * field carries its text and the instant that parsing it yields, if any.
 */
module Meals {
  import opened Basics

  const DayMs: int := 86400000

  type MsOfDay = n: int | 0 <= n < 86400000

  /** A local date and time: the day number and the time of day. */
  datatype Instant = Instant(day: int, msOfDay: MsOfDay)

  /** `getTime()` in local time (no daylight-saving shifts). */
  function Time(t: Instant): int {
    t.day * DayMs + t.msOfDay
  }

  /** `getDay()`: 0 = Sunday, 1 = Monday, ..., 6 = Saturday. */
  function Weekday(day: int): (w: nat)
    ensures w < 7
  {
    (day + 4) % 7
  }

  /** Weekdays repeat every seven days. */
  lemma WeekdayPeriodic(day: int)
    ensures Weekday(day + 7) == Weekday(day)
  {
  }

  /** The table DAY_INDEX: Monday -> 0, ..., Saturday -> 5, Sunday -> 6. */
  function DayIndex(weekday: nat): (index: nat)
    requires weekday < 7
    ensures index < 7
  {
    match weekday
    case 1 => 0
    case 2 => 1
    case 3 => 2
    case 4 => 3
    case 5 => 4
    case 6 => 5
    case 0 => 6
  }

  /** DAY_INDEX is a bijection on 0..6 that shifts every weekday one place down, Sunday last. */
  lemma DayIndexIsRotation(weekday: nat)
    requires weekday < 7
    ensures DayIndex(weekday) == (weekday + 6) % 7
    ensures forall other: nat :: other < 7 && DayIndex(other) == DayIndex(weekday) ==> other == weekday
  {
  }

  /** A date-valued field of a stored record: its text and what parsing the text yields. */
  datatype DateField = DateField(text: string, parsed: Option<Instant>)

  const NoDate := DateField("", None)

  /** A JSON calorie value: a missing field, null, a finite number, or NaN/Infinity. */
  datatype Calories = Undefined | Null | Finite(amount: real) | NonFinite

  /** `Number(calories)` when the result is finite (null becomes 0, undefined becomes NaN). */
  function FiniteNumber(c: Calories): (r: Option<real>)
    ensures r.None? <==> c.Undefined? || c.NonFinite?
    ensures c.Finite? ==> r == Some(c.amount)
    ensures c.Null? ==> r == Some(0.0)
  {
    match c
    case Undefined => None
    case Null => Some(0.0)
    case Finite(x) => Some(x)
    case NonFinite => None
  }

  /**
   * A meal as the backend lists it. String fields hold "" where the JSON
   * value is missing, null or empty: the client only tests them with `||`.
   */
  datatype MealRecord = MealRecord(
    id: Option<int>,
    name: string,
    calories: Calories,
    date: DateField,
    createdAt: DateField,
    image: string,
    imageUrl: string,
    filename: string)

  /** The baseline shown when no meal qualifies. */
  const DefaultWeeklyCalories: seq<real> := [2100.0, 1950.0, 2230.0, 2010.0, 1890.0, 2400.0, 2150.0]

  /** `parseMealDate`: nothing for an empty value, otherwise what parsing yields. */
  function ParseMealDate(value: DateField): (r: Option<Instant>)
    ensures value.text == "" ==> r.None?
    ensures value.text != "" ==> r == value.parsed
  {
    if value.text == "" then None else value.parsed
  }

  /** `formatMealDate`: "Unknown date" unless the value parses; `format` stands for the formatter. */
  function FormatMealDate(value: DateField, format: Instant -> string): (r: string)
    ensures ParseMealDate(value).None? ==> r == "Unknown date"
    ensures ParseMealDate(value).Some? ==> r == format(ParseMealDate(value).value)
  {
    match ParseMealDate(value)
    case None => "Unknown date"
    case Some(date) => format(date)
  }

  /** `meal.date || meal.created_at`. */
  function RecordDate(m: MealRecord): (d: DateField)
    ensures m.date.text != "" ==> d == m.date
    ensures m.date.text == "" ==> d == m.createdAt
  {
    if m.date.text != "" then m.date else m.createdAt
  }

  /** Where a counted record goes and how much it adds. */
  datatype Entry = Entry(bucket: nat, amount: real)

  /**
   * What one record contributes to the series whose reference midnight is
   * `today`: nothing when its calories are not finite, its date does not
   * parse, or the date is not 0..6 days before `today`; otherwise its
   * calories, in the bucket of its own weekday.
   */
  function Counted(m: MealRecord, today: int): (e: Option<Entry>)
    ensures e.Some? ==> e.value.bucket < 7
    ensures e.Some? <==>
      FiniteNumber(m.calories).Some? &&
      ParseMealDate(RecordDate(m)).Some? &&
      0 <= today - ParseMealDate(RecordDate(m)).value.day <= 6
    ensures e.Some? ==>
      e.value.amount == FiniteNumber(m.calories).value &&
      e.value.bucket == DayIndex(Weekday(ParseMealDate(RecordDate(m)).value.day))
  {
    match FiniteNumber(m.calories)
    case None => None
    case Some(amount) =>
      match ParseMealDate(RecordDate(m))
      case None => None
      case Some(date) =>
        var diffInDays := today - date.day;
        if diffInDays < 0 || diffInDays > 6 then None
        else Some(Entry(DayIndex(Weekday(date.day)), amount))
  }

  /** The sum of the calories that the records add to bucket `k`. */
  function BucketTotal(meals: seq<MealRecord>, today: int, k: nat): real {
    if meals == [] then 0.0
    else
      var last := Counted(meals[|meals| - 1], today);
      BucketTotal(meals[..|meals| - 1], today, k) +
        (if last.Some? && last.value.bucket == k then last.value.amount else 0.0)
  }

  /** Whether some counted record has calories above zero (the `hasValues` flag). */
  function HasPositive(meals: seq<MealRecord>, today: int): (b: bool)
    ensures b <==> exists i :: 0 <= i < |meals| && Counted(meals[i], today).Some? &&
                              Counted(meals[i], today).value.amount > 0.0
  {
    if meals == [] then false
    else
      var init := meals[..|meals| - 1];
      var last := Counted(meals[|meals| - 1], today);
      var r := HasPositive(init, today) || (last.Some? && last.value.amount > 0.0);
      assert forall i :: 0 <= i < |init| ==> meals[i] == init[i];
      r
  }

  /** The seven bucket totals, Monday first. */
  function Totals(meals: seq<MealRecord>, today: int): (t: seq<real>)
    ensures |t| == 7
  {
    seq(7, k requires 0 <= k < 7 => BucketTotal(meals, today, k))
  }

  /**
   * `computeWeeklySeries(meals, referenceDate)` with `meals` None when it is
   * not an array: the baseline for no records, and also when no counted
   * record has positive calories; otherwise the per-weekday totals.
   */
  function WeeklySeries(meals: Option<seq<MealRecord>>, referenceDate: Instant): (r: seq<real>)
    ensures |r| == 7
    ensures meals.None? || meals.value == [] ==> r == DefaultWeeklyCalories
  {
    if meals.None? || meals.value == [] then DefaultWeeklyCalories
    else if HasPositive(meals.value, referenceDate.day) then Totals(meals.value, referenceDate.day)
    else DefaultWeeklyCalories
  }

  /** The loop of `computeWeeklySeries`, accumulating into a seven-slot array. */
  method ComputeWeeklySeries(meals: Option<seq<MealRecord>>, referenceDate: Instant)
    returns (series: seq<real>)
    ensures series == WeeklySeries(meals, referenceDate)
  {
    if meals.None? || |meals.value| == 0 {
      return DefaultWeeklyCalories;
    }
    var ms := meals.value;
    var totals := new real[7](_ => 0.0);
    var hasValues := false;
    var today := referenceDate.day;

    var i := 0;
    while i < |ms|
      invariant 0 <= i <= |ms|
      invariant forall k :: 0 <= k < 7 ==> totals[k] == BucketTotal(ms[..i], today, k)
      invariant hasValues == HasPositive(ms[..i], today)
    {
      var meal := ms[i];
      var positive := AddMeal(totals, meal, today);
      hasValues := hasValues || positive;
      CountedStep(ms[..i], meal, today);
      assert ms[..i + 1] == ms[..i] + [meal];
      i := i + 1;
    }
    assert ms[..|ms|] == ms;
    series := totals[..];
    if !hasValues {
      series := DefaultWeeklyCalories;
    }
  }

  /**
   * The `forEach` callback of `computeWeeklySeries`: a counted record adds
   * its calories to its weekday's slot; the answer says whether it sets the
   * `hasValues` flag.
   */
  method AddMeal(totals: array<real>, meal: MealRecord, today: int) returns (positive: bool)
    requires totals.Length == 7
    modifies totals
    ensures var c := Counted(meal, today);
      forall k :: 0 <= k < 7 ==>
        totals[k] == old(totals[k]) + (if c.Some? && c.value.bucket == k then c.value.amount else 0.0)
    ensures var c := Counted(meal, today);
      positive == (c.Some? && c.value.amount > 0.0)
  {
    positive := false;
    var caloriesValue := FiniteNumber(meal.calories);
    if caloriesValue.None? {
      return;
    }
    var date := ParseMealDate(RecordDate(meal));
    if date.None? {
      return;
    }
    var diffInDays := today - date.value.day;
    if diffInDays < 0 || diffInDays > 6 {
      return;
    }
    var index := DayIndex(Weekday(date.value.day));
    totals[index] := totals[index] + caloriesValue.value;
    positive := caloriesValue.value > 0.0;
  }

  /** `getDefaultWeeklyCalories`: a fresh array holding the baseline. */
  method GetDefaultWeeklyCalories() returns (copy: array<real>)
    ensures fresh(copy)
    ensures copy[..] == DefaultWeeklyCalories
  {
    copy := new real[7];
    var i := 0;
    while i < 7
      invariant 0 <= i <= 7
      invariant copy[..i] == DefaultWeeklyCalories[..i]
    {
      copy[i] := DefaultWeeklyCalories[i];
      i := i + 1;
    }
  }

  // ---- Properties of the series ----

  /** One more record adds its counted amount to its own bucket and may set the flag. */
  lemma CountedStep(prefix: seq<MealRecord>, meal: MealRecord, today: int)
    ensures var c := Counted(meal, today);
      forall k :: BucketTotal(prefix + [meal], today, k) ==
        BucketTotal(prefix, today, k) + (if c.Some? && c.value.bucket == k then c.value.amount else 0.0)
    ensures var c := Counted(meal, today);
      HasPositive(prefix + [meal], today) == (HasPositive(prefix, today) || (c.Some? && c.value.amount > 0.0))
  {
    var s := prefix + [meal];
    assert s[..|s| - 1] == prefix;
    assert s[|s| - 1] == meal;
  }

  /** Splitting the record list splits every bucket total. */
  lemma {:induction false} BucketTotalAppend(a: seq<MealRecord>, b: seq<MealRecord>, today: int, k: nat)
    ensures BucketTotal(a + b, today, k) == BucketTotal(a, today, k) + BucketTotal(b, today, k)
    decreases |b|
  {
    if b == [] {
      assert a + b == a;
    } else {
      var b' := b[..|b| - 1];
      assert (a + b)[..|a + b| - 1] == a + b';
      assert (a + b)[|a + b| - 1] == b[|b| - 1];
      BucketTotalAppend(a, b', today, k);
    }
  }

  /** The order of the records does not matter: swapping two blocks keeps every bucket. */
  lemma BucketTotalOrderInsensitive(a: seq<MealRecord>, b: seq<MealRecord>, today: int, k: nat)
    ensures BucketTotal(a + b, today, k) == BucketTotal(b + a, today, k)
  {
    BucketTotalAppend(a, b, today, k);
    BucketTotalAppend(b, a, today, k);
  }

  /** A single record adds its calories to exactly the bucket of its weekday. */
  lemma SingleRecordBucket(m: MealRecord, today: int, k: nat)
    requires k < 7
    ensures BucketTotal([m], today, k) ==
      if Counted(m, today).Some? && Counted(m, today).value.bucket == k
      then Counted(m, today).value.amount else 0.0
  {
    assert [m][..0] == [];
  }

  /** A record that does not count leaves the whole series unchanged. */
  lemma IgnoredRecordChangesNothing(meals: seq<MealRecord>, m: MealRecord, referenceDate: Instant)
    requires meals != []
    requires Counted(m, referenceDate.day).None?
    ensures WeeklySeries(Some(meals + [m]), referenceDate) == WeeklySeries(Some(meals), referenceDate)
  {
    var today := referenceDate.day;
    var all := meals + [m];
    assert all[..|all| - 1] == meals;
    assert HasPositive(all, today) == HasPositive(meals, today);
    forall k | 0 <= k < 7
      ensures Totals(all, today)[k] == Totals(meals, today)[k]
    {
    }
  }

  /** A record dated in the future or more than six days back does not count. */
  lemma OutsideWindowNotCounted(m: MealRecord, today: int)
    requires ParseMealDate(RecordDate(m)).Some?
    requires var d := today - ParseMealDate(RecordDate(m)).value.day; d < 0 || d > 6
    ensures Counted(m, today).None?
  {
  }

  /** Without any counted record of positive calories the baseline is shown. */
  lemma BaselineWithoutPositive(meals: seq<MealRecord>, referenceDate: Instant)
    requires forall i :: 0 <= i < |meals| && Counted(meals[i], referenceDate.day).Some? ==>
               Counted(meals[i], referenceDate.day).value.amount <= 0.0
    ensures WeeklySeries(Some(meals), referenceDate) == DefaultWeeklyCalories
  {
  }

  /** With a positive counted record the series is exactly the bucket totals. */
  lemma TotalsWithPositive(meals: seq<MealRecord>, referenceDate: Instant, i: nat)
    requires i < |meals|
    requires Counted(meals[i], referenceDate.day).Some?
    requires Counted(meals[i], referenceDate.day).value.amount > 0.0
    ensures forall k :: 0 <= k < 7 ==>
      WeeklySeries(Some(meals), referenceDate)[k] == BucketTotal(meals, referenceDate.day, k)
  {
  }

  // ---- Worked examples ----

  const Friday := 20000  // 2024-10-04 is day 20000 and a Friday

  function MealOn(day: int, calories: real): MealRecord {
    MealRecord(None, "Meal", Finite(calories), DateField("2024-10-04", Some(Instant(day, 43200000))),
               NoDate, "", "", "")
  }

  /**
   * Worked example, for documentation: two meals dated today with 300 and
   * 200 kcal give 500 in today's bucket and 0 elsewhere. The statements for
   * every input are TotalsWithPositive and BaselineWithoutPositive.
   */
  lemma TwoMealsToday()
    ensures WeeklySeries(Some([MealOn(Friday, 300.0), MealOn(Friday, 200.0)]), Instant(Friday, 0))
            == [0.0, 0.0, 0.0, 0.0, 500.0, 0.0, 0.0]
  {
    var ms := [MealOn(Friday, 300.0), MealOn(Friday, 200.0)];
    assert Weekday(Friday) == 5;
    assert ms[..1] == [MealOn(Friday, 300.0)];
    assert [MealOn(Friday, 300.0)][..0] == [];
    assert Counted(ms[0], Friday) == Some(Entry(4, 300.0));
    assert Counted(ms[1], Friday) == Some(Entry(4, 200.0));
    assert HasPositive(ms, Friday);
    var t := Totals(ms, Friday);
    forall k | 0 <= k < 7
      ensures t[k] == [0.0, 0.0, 0.0, 0.0, 500.0, 0.0, 0.0][k]
    {
      assert BucketTotal(ms[..1], Friday, k) == (if k == 4 then 300.0 else 0.0);
      assert BucketTotal(ms, Friday, k) == BucketTotal(ms[..1], Friday, k) + (if k == 4 then 200.0 else 0.0);
    }
  }

  /** A meal eight days old is excluded, so on its own it leaves the baseline. */
  lemma EightDaysAgoExcluded()
    ensures Counted(MealOn(Friday - 8, 500.0), Friday).None?
    ensures WeeklySeries(Some([MealOn(Friday - 8, 500.0)]), Instant(Friday, 0)) == DefaultWeeklyCalories
  {
    assert !HasPositive([MealOn(Friday - 8, 500.0)], Friday);
  }

  /** Records whose dates do not parse never count. */
  lemma UnparseableDatesGiveBaseline(meals: seq<MealRecord>, referenceDate: Instant)
    requires forall i :: 0 <= i < |meals| ==> ParseMealDate(RecordDate(meals[i])).None?
    ensures WeeklySeries(Some(meals), referenceDate) == DefaultWeeklyCalories
  {
  }
}
