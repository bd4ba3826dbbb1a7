# Personal food log, modelled in Dafny

This project models the core of a personal food-log application:

- a React client, where a user signs in or signs up, photographs or picks a meal picture, has it analysed, and saves the meal;
- a Flask backend that checks uploads, stores them, predicts a meal and its calories from the picture, and validates the meals it saves.

Each source file of the core is a Dafny module of its own:

- **Pure helpers** become datatypes, functions and lemmas. These cover the weekly calorie series, image URLs, file names and extensions, error normalisation, the title-casing of labels, the macro split, and the routes' replies.
- **Stateful objects** become classes whose methods update fields. These are the browser's localStorage, the meal store, the pages with their React state, the capture dialog, and the model caches of the predictor.
- **Navigation** is recorded as a sequence of visited paths.

Library results the code cannot see are parameters:

- the date parser and formatter;
- `secure_filename`, `uuid4`, `strptime`, the clock;
- the S3 upload, the classifier, the random choice;
- the results of network requests.

| module | source |
|---|---|
| Basics, Text, Http | shared datatypes: Option, Result, ASCII text helpers, backend replies and upload parts |
| Auth | src/utils/auth.js |
| Api | src/api.js |
| Meals | src/utils/meals.js |
| Dashboard | src/pages/FoodLogDashboard.jsx |
| Tables | src/pages/dashboard/tables.jsx |
| Image | src/utils/image.js |
| Capture | src/components/meal-capture/MealCaptureDialog.jsx |
| Processing | src/pages/Processing.jsx |
| ResultPage | src/pages/Result.jsx |
| MealContext | src/context/meal.jsx |
| SignIn | src/pages/auth/sign-in.jsx |
| SignUp | src/pages/auth/sign-up.jsx |
| AuthLanding | src/pages/AuthLanding.jsx |
| Profile | src/pages/Profile.jsx |
| TopNavbar | src/widgets/layout/top-navbar.jsx |
| DashboardNavbar | src/widgets/layout/dashboard-navbar.jsx |
| BackendUtils | backend/api/utils.py |
| BackendRoutes | backend/api/routes.py |
| BackendApp | backend/app.py |
| Predictor | backend/api/ml_predict.py |

Conventions used throughout:

- A JavaScript value that the code only tests for truthiness (`x || y`, `if (!x)`) is a `string`, where `""` stands for undefined, null and the empty string alike.
- Calories are exact reals on the client. On the server they are the integers `int()` yields.
- A date is a local day number counted from 1970-01-01 (a Thursday), plus the milliseconds into that day.

## Model

| member | source | states |
|---|---|---|
| Auth.LocalStorage.SetItem | src/utils/auth.js:6 | the key then holds the value; every other key is as it was |
| Auth.LocalStorage.RemoveItem | src/utils/auth.js:20 | the key is gone; every other key is as it was |
| Auth.UserRecord | src/utils/auth.js:11-14 | the stored user has exactly the keys email and provider; email is null when empty; provider defaults to "password" |
| Auth.SessionSaved | src/utils/auth.js:4-17 | a non-empty token is stored, otherwise the old token entry (present or absent) is kept; the user record is written only when there is an email or a provider, otherwise the old one is kept; every other key is untouched |
| Auth.SaveSession | src/utils/auth.js:4-17 | the storage afterwards is exactly SessionSaved of the storage before |
| Auth.SessionCleared | src/utils/auth.js:19-23 | token, user and stored test user are all absent; every other key keeps its value |
| Auth.ClearSession | src/utils/auth.js:19-23 | the storage afterwards is exactly SessionCleared of the storage before |
| Auth.GetToken | src/utils/auth.js:25 | a value exactly when the token key is stored, and then that value |
| Auth.GetUser | src/utils/auth.js:27-36 | nothing when no user is stored or the stored text does not parse as an object; otherwise the stored object |
| Auth.UserEmail | src/widgets/layout/dashboard-navbar.jsx:79 | the stored user's email when it is a string, "" when there is no user, no email, or a null email |
| Auth.IsAuthenticated | src/utils/auth.js:38 | `Boolean(getToken())`: a token is stored and it is not empty; SavedTokenAuthenticates, SaveWithoutTokenKeepsState and ClearedSignsOut state how saving and clearing decide it |
| Auth.SavedTokenAuthenticates | src/utils/auth.js:5-38 | after saving a non-empty token the user is authenticated, whatever was stored before |
| Auth.SaveWithoutTokenKeepsState | src/utils/auth.js:5-7 | saving without a token leaves the authenticated state as it was, in both directions |
| Auth.SavedUserReadBack | src/utils/auth.js:8-16 | a user record that was saved is read back by getUser with its defaults, and its email is the one saved |
| Auth.ClearedSignsOut | src/utils/auth.js:19-23 | after clearing nobody is authenticated, no user is read back and the test user is gone |
| Auth.ClearIdempotent | src/utils/auth.js:19-23 | clearing twice leaves the same storage as clearing once |
| Api.ConfiguredBaseUrl | src/api.js:3-4 | the base URL is never empty and is the configured one whenever that is set |
| Text.ReplaceChar | src/api.js:34 | same length; each occurrence of the character becomes the replacement and every other character stays (with backslash and "/" here, underscore and space in backend/api/ml_predict.py:147) |
| Api.StripLeadingSlashes | src/api.js:34 | a suffix of the input that does not start with "/", and everything removed was "/" |
| Api.StripUploadsPrefix | src/api.js:35 | with a leading "uploads/", the input is that prefix followed by the result; without one, the input unchanged |
| Api.UploadPath | src/api.js:34-35 | backslashes become "/", leading slashes go and one "uploads/" prefix goes; UploadPathHasNoBackslash, UploadPathOfPlainReference, UploadsPrefixIsOptional and OnlyOneUploadsPrefixRemoved state what comes out |
| Api.BuildImageUrl | src/api.js:30-36 | "" for no value; values starting with "http" unchanged; anything else becomes the base URL, "/uploads/" and the normalised path |
| Api.ResolveBackendImage | src/api.js:80-83 | never empty: the placeholder image for no value, otherwise the built URL |
| Api.UploadPathHasNoBackslash | src/api.js:34-35 | the path put after "/uploads/" never contains a backslash |
| Api.UploadPathOfPlainReference | src/api.js:34-35 | a reference without backslashes or leading slashes only loses a leading "uploads/" |
| Api.UploadsPrefixIsOptional | src/api.js:35 | "uploads/x" and "x" resolve to the same URL |
| Api.StripUploadsPrefixOnce | src/api.js:35 | removing the prefix from "uploads/" + t gives back t exactly |
| Api.OnlyOneUploadsPrefixRemoved | src/api.js:35 | a doubled "uploads/uploads/" keeps its second prefix in the URL |
| Api.NormalizeError | src/api.js:14-28 | errors without response data pass through untouched; with data, the message becomes data.message, else data.error, else the old message, and the data and status are attached |
| Api.NormalizeErrorIdempotent | src/api.js:18-24 | running the interceptor twice gives the same error as running it once, for every error |
| Api.ErrorText | src/pages/Result.jsx:69-72 | never empty when the fallback is not; prefers data.message, then data.error, then the message, then the fallback |
| Api.ErrorTextAfterInterceptor | src/api.js:18-24 | after the interceptor, the text a page shows for an error response is the server's message or error, or the transport message |
| Api.GetMeals | src/api.js:60-63 | the array body as it came, or [] for any body that is not an array |
| Meals.Weekday | src/utils/meals.js:59 | getDay of a day number, always in 0..6 |
| Meals.DayIndex | src/utils/meals.js:3-11 | every weekday has a slot in 0..6 |
| Meals.DayIndexIsRotation | src/utils/meals.js:3-11 | the slot is the weekday moved one place down with Sunday last, and different weekdays get different slots |
| Meals.FiniteNumber | src/utils/meals.js:43-44 | no number exactly for undefined and non-finite calories; null counts as 0; a finite number is itself |
| Meals.ParseMealDate | src/utils/meals.js:13-17 | nothing for an empty value, otherwise the parser's result, which may be nothing |
| Meals.FormatMealDate | src/utils/meals.js:25-28 | "Unknown date" exactly when the value does not parse; otherwise the formatter's text for the parsed date |
| Meals.RecordDate | src/utils/meals.js:46 | the date field when it is set, otherwise created_at |
| Meals.Counted | src/utils/meals.js:43-60 | a record counts exactly when its calories are finite, its date parses and the date lies 0 to 6 days before the reference day; it then adds its calories to its weekday's slot |
| Meals.HasPositive | src/utils/meals.js:63 | true exactly when some counted record has calories above zero |
| Meals.Totals | src/utils/meals.js:36 | seven totals, one per weekday slot |
| Meals.WeeklySeries | src/utils/meals.js:31-66 | always seven values, and the baseline for a non-array or an empty list (the other two cases are the next two lemmas below) |
| Meals.ComputeWeeklySeries | src/utils/meals.js:31-66 | the loop over a seven-slot array returns exactly WeeklySeries |
| Meals.AddMeal | src/utils/meals.js:42-64 | one callback run adds the record's counted calories to its own slot, changes no other slot, and reports whether it sets the hasValues flag |
| Meals.GetDefaultWeeklyCalories | src/utils/meals.js:69 | a fresh array holding the baseline |
| Meals.CountedStep | src/utils/meals.js:62-63 | one more record changes only its own slot's total, by its calories, and sets the flag exactly when its calories are positive |
| Meals.BucketTotalAppend | src/utils/meals.js:42-64 | the slot totals of two lists joined are the sums of their slot totals |
| Meals.BucketTotalOrderInsensitive | src/utils/meals.js:42-64 | the order of the records does not change any slot total |
| Meals.SingleRecordBucket | src/utils/meals.js:59-62 | a single record adds its calories to exactly one slot, its weekday's |
| Meals.IgnoredRecordChangesNothing | src/utils/meals.js:43-60 | adding a record that does not count leaves the series unchanged |
| Meals.OutsideWindowNotCounted | src/utils/meals.js:53-57 | a record dated in the future or more than six days back does not count |
| Meals.BaselineWithoutPositive | src/utils/meals.js:63-66 | without a positive counted record the series is the baseline |
| Meals.TotalsWithPositive | src/utils/meals.js:62-66 | with a positive counted record the series is exactly the slot totals |
| Meals.TwoMealsToday | src/utils/meals.js:42-66 | two meals of 300 and 200 kcal dated on a Friday give 500 in the Friday slot and 0 elsewhere |
| Meals.EightDaysAgoExcluded | src/utils/meals.js:57 | a meal eight days old does not count, so alone it gives the baseline |
| Meals.UnparseableDatesGiveBaseline | src/utils/meals.js:47-48 | records whose dates do not parse never count, so they give the baseline |
| Dashboard.CalorieCellOf | src/pages/FoodLogDashboard.jsx:131 | the dash exactly for null and undefined calories; any other value, 0 included, is shown as it is |
| Dashboard.RowIdOf | src/pages/FoodLogDashboard.jsx:129 | a truthy id is kept; otherwise the key is the name, or "meal", then "-" and the position |
| Dashboard.SortTime | src/pages/FoodLogDashboard.jsx:125-127 | the timestamp of the record's date when it parses, otherwise minus its position |
| Dashboard.ToRecent | src/pages/FoodLogDashboard.jsx:124-137 | the display record: key, name or "Meal", calorie cell, formatted date, sort time and the resolved image of image, image_url or filename |
| Dashboard.Insert | src/pages/FoodLogDashboard.jsx:139 | inserting adds exactly the new element: same multiset plus the element, one longer |
| Dashboard.InsertOrdered | src/pages/FoodLogDashboard.jsx:139 | inserting an element later in input order than every other keeps the list ordered |
| Dashboard.Sort | src/pages/FoodLogDashboard.jsx:139 | the sorted list is a permutation of the input |
| Dashboard.SortOrdered | src/pages/FoodLogDashboard.jsx:139 | the sort orders by descending sort time, ties kept in input order (a stable sort) |
| Dashboard.RankedMeals | src/pages/FoodLogDashboard.jsx:123-138 | one display record per input record, each paired with its position |
| Dashboard.Ranking | src/pages/FoodLogDashboard.jsx:123-139 | the ranking is ordered and is a permutation of the display records |
| Dashboard.RecentMeals | src/pages/FoodLogDashboard.jsx:120-141 | [] for a non-array; otherwise the first min(3, n) entries of the ranking |
| Dashboard.RecentMealsOrdered | src/pages/FoodLogDashboard.jsx:139-140 | the shown meals run from the most recent down; equal times keep their input order |
| Dashboard.RecentMealsComeFromInput | src/pages/FoodLogDashboard.jsx:123-140 | every meal shown is the display form of one of the input records |
| Dashboard.MoreRecentMealIsShown | src/pages/FoodLogDashboard.jsx:139-140 | a record strictly more recent than the last meal shown is itself among those shown |
| Dashboard.UndatedKeepInputOrder | src/pages/FoodLogDashboard.jsx:127 | of two records without a parsable date, the earlier in input comes first |
| Dashboard.ZeroCaloriesShown | src/pages/FoodLogDashboard.jsx:131 | 0 calories are shown as 0, not as the dash |
| Dashboard.HistoryError | src/pages/FoodLogDashboard.jsx:143-147 | the store's error first; else "No meal data available." exactly when loading is over and nothing is shown; else "" |
| Tables.RowImage | src/pages/dashboard/tables.jsx:21-23 | always an image: the resolved URL of image, image_url or filename |
| Tables.Rows | src/pages/dashboard/tables.jsx:15-26 | one row per meal, in order, with name, calories and date copied unchanged |
| Tables.EveryRowHasImage | src/pages/dashboard/tables.jsx:21-23 | every row has a non-empty image, so the null fallback never applies |
| Tables.RowsAppend | src/pages/dashboard/tables.jsx:15-24 | the rows of two joined lists are the rows of each, one after the other |
| Tables.Placeholder | src/pages/dashboard/tables.jsx:91-99 | the placeholder appears exactly when there are no rows, with the loading text while loading and the empty text otherwise |
| Tables.RefreshWhenEmpty | src/pages/dashboard/tables.jsx:9-13 | a refresh happens exactly when the store has no meals; otherwise the store is untouched; a failed refresh is dropped |
| BackendUtils.LastIndexOf | backend/api/utils.py:10 | -1 exactly when the character does not occur; otherwise an index holding it with none after it |
| BackendUtils.Extension | backend/api/utils.py:10 | the text after the last dot, which holds no dot |
| BackendUtils.AllowedFile | backend/api/utils.py:9-10 | a dot, and the lowercased text after the last dot is an allowed extension; NoDotRefused and AllowedByLastExtension state it for every name |
| BackendUtils.NoDotRefused | backend/api/utils.py:10 | a file name without a dot is never allowed |
| BackendUtils.AllowedByLastExtension | backend/api/utils.py:10 | a name is allowed exactly when the text after its last dot, lowercased, is png, jpg, jpeg, gif or bmp |
| BackendUtils.PathSuffix | backend/api/utils.py:18 | "" or a dot followed by at least one character and no further dot |
| BackendUtils.StoredName | backend/api/utils.py:17-19 | every stored name starts with "meal_" and goes on |
| BackendUtils.StoredExtension | backend/api/utils.py:18-19 | the stored extension has no dot, and no separator when the sanitised name has none |
| BackendUtils.StoredNameParts | backend/api/utils.py:17-19 | a stored name is "meal_", the hex string, a dot and the lowercased extension, "jpg" when there was no suffix |
| BackendUtils.StoredNameAllowed | backend/api/utils.py:9-19 | a stored name passes allowed_file exactly when the sanitised name had no suffix or an allowed one |
| BackendUtils.StoredPath | backend/api/utils.py:20-22 | the path starts with the upload folder and "/", and the file name read back from it (the text after its last "/") is the stored name whenever the uuid is 32 hex digits and the sanitised name holds no "/" |
| BackendUtils.BaseName | backend/api/routes.py:68 | the file name part of a path holds no "/" |
| BackendUtils.StoredNameLacksSlash | backend/api/utils.py:17-19 | a stored name holds no "/" when the uuid is 32 hex digits and the sanitised name holds none |
| BackendRoutes.Login | backend/api/routes.py:27-47 | the email is trimmed with Python's `str.strip()` whitespace (which also counts the separators 0x1C to 0x1F); 400 when the trimmed email or the password is missing; success exactly for a test user with its password, answering the token and the trimmed email as sent; otherwise 401 |
| BackendRoutes.LoginIgnoresCaseAndSpace | backend/api/routes.py:30-38 | emails equal up to case and surrounding space succeed or fail alike, with the same error |
| BackendRoutes.TestUsersSignIn | backend/api/routes.py:37-45 | each test user signs in with "1234" however the email is cased or padded, and the answer echoes the trimmed email |
| BackendRoutes.SeparatorPaddedEmailSignsIn | backend/api/routes.py:30-45 | a test user's email preceded by a separator 0x1C to 0x1F signs in with "1234" and is echoed without the separator |
| BackendRoutes.TestPassword | backend/api/routes.py:13-16 | every test user's password is "1234" |
| BackendRoutes.ProfileRoute | backend/api/routes.py:50-52 | always 200, with the payload the profile page already uses as its fallback |
| BackendRoutes.CheckUpload | backend/api/routes.py:57-65 | the upload checks in order: the part is missing, its name is empty, its extension is not allowed; no error otherwise |
| BackendRoutes.UploadImage | backend/api/routes.py:55-75 | a failed check gives 400 with its message; otherwise 200 with the stored name and its path under "uploads/" |
| BackendRoutes.UploadAnswersStoredName | backend/api/routes.py:67-75 | an accepted upload answers with the "meal_" name it stored and "uploads/" plus that name |
| Http.UploadKey | backend/api/routes.py:80 | "photo" exactly when that part is present, otherwise "image"; backend/app.py:143 makes the same choice |
| BackendRoutes.PredictRoute | backend/api/routes.py:78-98 | 400 on a failed check of the chosen part; 500 with the details when the predictor raises; success exactly otherwise, with the prediction as it came |
| BackendRoutes.PhotoPreferred | backend/api/routes.py:80-81 | when a "photo" part is present, the "image" part has no influence on the answer |
| BackendRoutes.SaveMeal | backend/api/routes.py:107-137 | the outcomes in order: 400 for a missing name or calories; 400 when `int()` raises TypeError or ValueError, an unhandled exception when it overflows on an infinite value; then, for a present date, 400 when `strptime` raises ValueError and an unhandled exception when it raises TypeError on a non-string; success exactly when the name is there, the calories convert and a present date parses, with 201 and the meal dated by its date or today |
| BackendRoutes.ZeroCaloriesAccepted | backend/api/routes.py:114-115 | zero calories are accepted: only a missing value is refused |
| BackendApp.RoundHalfEven | backend/app.py:104-106 | the result is within half a unit of n/d, and an exact half goes to the even neighbour |
| BackendApp.RoundHalfEvenNearest | backend/app.py:104-106 | no other integer is closer to n/d than the rounded value |
| BackendApp.MacroSplit | backend/app.py:102-112 | the four keys, with carbohydrates, proteins and fats the rounded calories/8, calories/16 and calories/36, all 0 for zero calories |
| BackendApp.Normalise | backend/app.py:87-116 | the name or "Meal"; the calories; the ingredients as a list or []; the given facts with calories added when missing, or the estimated split |
| BackendApp.NormaliseIdempotent | backend/app.py:87-116 | normalising a normalised prediction changes nothing |
| BackendApp.NutritionHasCalories | backend/app.py:101-114 | the facts always hold calories, equal to the prediction's unless the given facts had their own |
| BackendApp.MacroSigns | backend/app.py:104-106 | zero calories give zero of every macro, and positive calories never give a negative one |
| BackendApp.HalvesGoToEven | backend/app.py:104-106 | 12 and 20 kcal both give 2 g of carbohydrates, and 750 kcal give 94, 47 and 21 g |
| BackendApp.PredictorOutputGetsMacroSplit | backend/app.py:95-112 | a predictor's own result always gets the estimated split and no ingredients, and keeps its meal name |
| BackendApp.S3Url | backend/app.py:84 | the public URL of an uploaded object, the one PredictRoute answers with |
| BackendApp.PredictRoute | backend/app.py:74-193 | 400 for a missing or unnamed part; 502 with the text when the upload fails with a BotoCoreError or NoCredentialsError; an unhandled exception (exactly when the upload raises anything else); 500 with the text when the predictor raises; success exactly when the part is there, the upload succeeds and the predictor returns, with the public URL `https://<bucket>.s3.amazonaws.com/<uuid>.jpg`, the normalised ingredients and facts, and the timestamp |
| BackendApp.EmptyPhotoHidesImage | backend/app.py:143-146 | a "photo" part with an empty name is refused even when a usable "image" part is present |
| Predictor.LabelsAreKeys | backend/api/ml_predict.py:122 | the list the random choice draws from is exactly the table's keys |
| Predictor.TitleAfter | backend/api/ml_predict.py:147 | title-casing keeps the length |
| Predictor.TitleCase | backend/api/ml_predict.py:147 | each letter is uppercased when no letter precedes it and lowercased otherwise; other characters stay |
| Predictor.TitleCaseIdempotent | backend/api/ml_predict.py:147 | title-casing twice is title-casing once, and it changes letter case only |
| Predictor.MealForLabel | backend/api/ml_predict.py:142-148 | the table's meal for the lowercased label; otherwise the label's readable form at 450 kcal |
| Predictor.LabelCaseIgnored | backend/api/ml_predict.py:143-146 | labels that differ only in letter case give the same table meal |
| Predictor.UnknownLabelName | backend/api/ml_predict.py:147 | the name made for an unknown label has its length, no underscores, and its letters up to case |
| Predictor.RandomPrediction | backend/api/ml_predict.py:120-123 | a copy of the table entry that was chosen, without an error |
| Predictor.PredictionOutcome | backend/api/ml_predict.py:126-158 | a random entry when a model or the image is missing; the random entry carrying the text when inference raises; otherwise the meal for the label |
| Predictor.PredictionFromTableOrDefault | backend/api/ml_predict.py:126-158 | every prediction is a table meal or a 450-kcal meal, and one carrying an error is always a table meal |
| Predictor.ModelCache.constructor | backend/api/ml_predict.py:41-43 | nothing is cached and no classifier load was attempted |
| Predictor.ModelCache.LoadFeatureExtractor | backend/api/ml_predict.py:55-72 | a cached extractor is returned unchanged; without TensorFlow nothing is built; otherwise a successful MobileNetV2 build is cached and returned, and a build that raises leaves the cache empty and hands the exception's text back; the classifier cache is untouched |
| Predictor.ModelCache.LoadClassifier | backend/api/ml_predict.py:75-105 | after the first call nothing changes and the cached value, possibly none, is returned; the first call marks the attempt and keeps the loaded model, or none when joblib or the file is missing; loading starts at most once |
| Predictor.ModelCache.PredictCalories | backend/api/ml_predict.py:126-158 | when building the feature extractor raises, the classifier is not loaded and the answer is the random entry carrying the exception's text; otherwise the feature extractor is the cached one, else the built one when TensorFlow is there, else none; the classifier is the cached one after an earlier attempt, else the loaded one when joblib and the file are there, else none; the attempt is marked, and the result is PredictionOutcome of those two caches, so both stay cached for the next call |
| Image.IsImageFile | src/utils/image.js:9 | the declared type starts with "image/"; DownscaleImageFile returns any other file untouched |
| Image.Round | src/utils/image.js:50-51 | Math.round: within half a unit of the value, halves rounded up |
| Image.RoundMonotonic | src/utils/image.js:50-51 | rounding never reverses the order of two values |
| Image.RoundOfInteger | src/utils/image.js:50-51 | an integer is rounded to itself |
| Image.ScaledDimensions | src/utils/image.js:43-54 | images within the limit keep their size and are not scaled; larger ones are marked scaled, their longest side becomes the limit, neither side exceeds it, and each side is within half a pixel of its exact proportional size |
| Image.ScaledSide | src/utils/image.js:48-51 | a scaled side lies between 0 and the limit, the largest side becomes exactly the limit, and the result is the rounded scaled side |
| Image.LandscapeExample | src/utils/image.js:43-54 | a 4000x3000 photo becomes 720x540 |
| Image.LastDotOrSlash | src/utils/image.js:57 | -1 or the index of the last "." or "/", with neither after it |
| Image.StripExtension | src/utils/image.js:57 | the result is always a prefix of the name |
| Image.StripExtensionOfNamed | src/utils/image.js:57 | exactly the last extension is removed when it holds no "." or "/" |
| Image.StripExtensionOfBare | src/utils/image.js:57 | a name without a dot is kept whole |
| Image.BuildFileName | src/utils/image.js:56-59 | the result ends in "." and the new extension; before that comes "meal-photo" when the name is empty or only a plain extension, and otherwise a non-empty prefix of the name that is either the whole name or stops at a "." followed by a plain extension (no "." or "/") |
| Image.BuildFileNameReplacesExtension | src/utils/image.js:56-59 | a name "base.ext" becomes "base." plus the new extension, and ".ext" alone becomes "meal-photo." plus it |
| Image.MimeExtension | src/utils/image.js:128 | never empty |
| Image.AfterFirstSlash | src/utils/image.js:128 | what follows the first "/", when there is one, is shorter than the input and comes right after a "/" |
| Image.UpToSlash | src/utils/image.js:128 | a prefix of the input without a "/" |
| Image.AfterFirstSlashOf | src/utils/image.js:128 | for "t/rest" with no "/" in t, the text after the first slash is rest |
| Image.NoSlashHasNoAfter | src/utils/image.js:128 | a text without "/" has no second part |
| Image.UpToSlashOf | src/utils/image.js:128 | the first split piece stops at the first "/" |
| Image.MimeExtensionOf | src/utils/image.js:128 | the subtype between the first and second "/", or "jpg" when that is empty |
| Image.MimeExtensionWithoutSlash | src/utils/image.js:128 | a type without "/" gives "jpg" |
| Image.DefaultExtensionIsJpeg | src/utils/image.js:3-7 | the default output type "image/jpeg" gives the extension "jpeg", while a bare "jpeg" falls back to "jpg" |
| Image.NeedsReencode | src/utils/image.js:105-107 | the image is redrawn when it was scaled or is over 2 MiB; SmallImageUntouched and DownscaleImageFile state both sides of the test |
| Image.EncodedFile | src/utils/image.js:129-132 | the encoded file has the output type and the rebuilt name |
| Image.DownscaleImageFile | src/utils/image.js:61-149 | non-images and images with a zero side go back unchanged with their preview; a failed element decode or redraw propagates; images that need neither scaling nor re-encoding stay as they are; otherwise the re-encoded file, or the original when encoding fails, drawn at the scaled size |
| Image.SmallImageUntouched | src/utils/image.js:107 | an image within the limit and at most 2 MiB is never re-encoded |
| Capture.ProcessingError | src/components/meal-capture/MealCaptureDialog.jsx:57-60 | never empty: the error's message, or the default text |
| Capture.CaptureSession.CanConfirm | src/components/meal-capture/MealCaptureDialog.jsx:116-119 | a draft and a preview are there and nothing is being processed; ResetCannotConfirm and SelectionThenConfirmable state when it holds |
| Capture.ResetCannotConfirm | src/components/meal-capture/MealCaptureDialog.jsx:116-119 | a reset dialog cannot confirm |
| Capture.SelectionThenConfirmable | src/components/meal-capture/MealCaptureDialog.jsx:46-119 | after a selection the dialog can confirm exactly when normalisation succeeded with a non-empty preview |
| Capture.CaptureSession.constructor | src/components/meal-capture/MealCaptureDialog.jsx:29-32 | no preview, no draft, no error, not processing |
| Capture.CaptureSession.ResetState | src/components/meal-capture/MealCaptureDialog.jsx:34-39 | all four state fields are back to their initial values |
| Capture.CaptureSession.HandleClose | src/components/meal-capture/MealCaptureDialog.jsx:41-44 | the state is reset and the parent is told to close |
| Capture.CaptureSession.HandleFileSelected | src/components/meal-capture/MealCaptureDialog.jsx:46-66 | no file changes nothing; success sets the draft and its preview and clears the error; failure sets the message and drops draft and preview; processing is over either way |
| Capture.CaptureSession.HandleConfirm | src/components/meal-capture/MealCaptureDialog.jsx:90-94 | without a draft and a preview nothing happens; otherwise exactly the draft and preview are handed on, and the dialog resets and closes only when the parent resolves |
| Capture.CaptureSession.HandleRetake | src/components/meal-capture/MealCaptureDialog.jsx:96-99 | reset, then the camera picker opens when its input is mounted |
| Capture.CaptureSession.HandleChooseAnother | src/components/meal-capture/MealCaptureDialog.jsx:101-104 | reset, then the upload picker opens when its input is mounted |
| Capture.CaptureSession.HandleRemove | src/components/meal-capture/MealCaptureDialog.jsx:106-108 | reset |
| Capture.CaptureSession.OnOpenChanged | src/components/meal-capture/MealCaptureDialog.jsx:110-114 | closing resets the dialog; opening changes nothing |
| MealContext.RefreshErrorMessage | src/context/meal.jsx:44-46 | never empty: the error's message, or the default text |
| MealContext.RefreshOutcome | src/context/meal.jsx:36-48 | resolves with getMeals' list, or rejects with the error as the interceptor left it |
| MealContext.MealStore.constructor | src/context/meal.jsx:17-23 | no capture, no analysis, no meals, not loading, no error, mounted |
| MealContext.MealStore.SetCapture | src/context/meal.jsx:17 | only the capture changes |
| MealContext.MealStore.SetAnalysis | src/context/meal.jsx:18 | only the analysis changes |
| MealContext.MealStore.Unmount | src/context/meal.jsx:25-30 | only the mounted flag changes, to false |
| MealContext.MealStore.BeginRefresh | src/context/meal.jsx:33-34 | loading on and error cleared, nothing else changes |
| MealContext.MealStore.CompleteRefresh | src/context/meal.jsx:35-53 | the result is the fetch outcome in any case; when still mounted, success stores the list, failure empties it and sets the message, and loading ends; after an unmount nothing changes |
| MealContext.MealStore.RefreshMeals | src/context/meal.jsx:32-54 | the result is the fetch outcome; when mounted, loading is over and the list and error reflect success or failure |
| MealContext.UseMeal | src/context/meal.jsx:81-86 | the provider's store, or the error thrown outside any provider |
| MealContext.ServerMessageReachesStore | src/context/meal.jsx:44-46 | the server's own message reaches the store's error when the response carries one |
| Processing.StoredReference | src/pages/Processing.jsx:23-29 | the first non-empty of path, image_url, image, filename and file; "" without a body |
| Processing.StoredReferencePriority | src/pages/Processing.jsx:23-32 | path wins over every other key and image_url over the rest; the reference is empty exactly when all five are |
| Processing.NormalizedAnalysis | src/pages/Processing.jsx:35-42 | meal, else food, else "Logged Meal"; ingredients or []; calories as given; the stored reference as image; the whole prediction as raw and the capture's preview |
| Processing.FailureMessage | src/pages/Processing.jsx:47-49 | never empty: the error's message, or the default text |
| Processing.ProcessingPage.constructor | src/pages/Processing.jsx:9 | no error, no pending redirect, no navigations |
| Processing.ProcessingPage.Run | src/pages/Processing.jsx:12-59 | without a captured file it goes home and sends nothing; otherwise it uploads the file, and asks for a prediction of the same file only with a stored reference; success stores the analysis and schedules /result after 3000 ms; any failure sets the message, clears capture and analysis and schedules home after 2500 ms; the meal list is untouched |
| Processing.ProcessingPage.Teardown | src/pages/Processing.jsx:61-65 | a pending redirect is cancelled; nothing else changes |
| ResultPage.SavedCalories | src/pages/Result.jsx:53-57 | within half a unit of a finite number, halves rounded up; 0 when the value is not a finite number |
| ResultPage.SavedCaloriesExamples | src/pages/Result.jsx:53-57 | 120.6 and 120.5 become 121, -0.5 becomes 0, and null, undefined and NaN become 0 |
| ResultPage.SavedCaloriesOfInteger | src/pages/Result.jsx:53-57 | a whole calorie count is sent unchanged |
| ResultPage.PayloadOf | src/pages/Result.jsx:59-63 | the name is never empty: the meal or "Logged Meal"; the rounded calories; the image, else image_url |
| ResultPage.ImageSrc | src/pages/Result.jsx:25-31 | never empty: the analysis preview, then the capture preview, then the resolved backend image or the placeholder |
| ResultPage.ResultPage.constructor | src/pages/Result.jsx:16-17 | no error, not saving, no navigations |
| ResultPage.ResultPage.OnAnalysisChanged | src/pages/Result.jsx:19-23 | the page goes home exactly when there is no analysis |
| ResultPage.ResultPage.ResetFlow | src/pages/Result.jsx:37-40 | capture and analysis are cleared; the meal list is untouched |
| ResultPage.ResultPage.HandleCancel | src/pages/Result.jsx:42-45 | the flow is reset and the page goes home |
| ResultPage.ResultPage.HandleSave | src/pages/Result.jsx:47-77 | without an analysis nothing happens; otherwise the payload is sent; on success the meals are refreshed (a refresh failure is dropped), the flow is reset and the page goes home; on failure the message is set and the store is untouched; saving is over either way |
| SignIn.TestUserRecord | src/pages/auth/sign-in.jsx:56-59 | the stored test user holds exactly the given email and password as strings |
| SignIn.LoginEmail | src/pages/auth/sign-in.jsx:25 | the given email trimmed when it is not blank after trimming, else the form's email trimmed |
| SignIn.LoggedInSignsIn | src/pages/auth/sign-in.jsx:22-35 | after completing a login the user is authenticated with the response token or "test_token", the stored user's email is the normalised one, and every other key is untouched |
| SignIn.TestAccountSignsIn | src/pages/auth/sign-in.jsx:165-178 | storing a test account signs the user in with "test_token" under that account's email |
| SignIn.StoredMatch | src/pages/auth/sign-in.jsx:39-53 | the stored test user matches exactly when it is a JSON object whose email equals the trimmed form email ignoring letter case and whose password equals the form password; the match answers the stored email |
| SignIn.FallbackDecision | src/pages/auth/sign-in.jsx:37-66 | a stored match wins; otherwise a new test user with the trimmed email is made exactly when the lowercased email contains "test"; otherwise the fallback gives up |
| SignIn.TestEmailAlwaysAccepted | src/pages/auth/sign-in.jsx:55 | an email with "test" anywhere in it, in any case, is never rejected by the fallback |
| SignIn.TestAccountMatch | src/pages/auth/sign-in.jsx:43-46 | against a stored test account, the fallback matches exactly when the typed email equals the account's ignoring case and surrounding whitespace and the password is identical |
| SignIn.SignInPage.constructor | src/pages/auth/sign-in.jsx:17-19 | empty form, not loading, no error, no navigations |
| SignIn.SignInPage.HandleChange | src/pages/auth/sign-in.jsx:68-71 | only the named input changes |
| SignIn.SignInPage.CompleteLogin | src/pages/auth/sign-in.jsx:22-35 | token and user record are written as the login result defines, then the page goes to the dashboard |
| SignIn.SignInPage.FallbackLogin | src/pages/auth/sign-in.jsx:37-66 | it reports success exactly when the decision does not give up; a match logs in with the stored email, a new test user is stored before logging in, and a rejection writes nothing and goes nowhere |
| SignIn.SignInPage.HandleSubmit | src/pages/auth/sign-in.jsx:73-98 | the trimmed email and the password are sent; a server success stores its token and email and goes home; on a failure, a stored match logs in as that user and goes home, a "test" email stores a new test user, logs in and goes home, and a rejection shows the normalised error message and leaves the storage and the location untouched; loading ends either way |
| SignIn.SignInPage.UseDemoAccount | src/pages/auth/sign-in.jsx:165-178 | the form holds the demo credentials, the demo test account is stored and the page goes to the dashboard; loading and the error are untouched |
| SignIn.DemoUserSignedIn | src/pages/auth/sign-in.jsx:165-178 | after the demo button the user is authenticated under the demo email |
| SignIn.DemoUserMatchesLater | src/pages/auth/sign-in.jsx:39-48 | a later offline sign-in with the demo credentials is matched from storage |
| SignIn.DemoEmailIsTrimmed | src/pages/auth/sign-in.jsx:167 | the demo email has no surrounding whitespace, so trimming keeps it |
| SignUp.Changed | src/pages/auth/sign-up.jsx:21-24 | only the named input of the form takes the new value |
| SignUp.StoreAccount | src/pages/auth/sign-up.jsx:41-46 | the three writes leave the test user, the test token and the user record for the given account |
| SignUp.SignUpPage.constructor | src/pages/auth/sign-up.jsx:17-18 | empty form, no error, no navigations |
| SignUp.SignUpPage.HandleChange | src/pages/auth/sign-up.jsx:21-24 | the form changes only in the named input |
| SignUp.SignUpPage.HandleSubmit | src/pages/auth/sign-up.jsx:26-49 | different passwords show the mismatch and store nothing; equal ones store a test account under the trimmed email and go to the dashboard |
| SignUp.SignUpSignsIn | src/pages/auth/sign-up.jsx:35-48 | a sign-up authenticates the user and stores the trimmed email as the user |
| SignUp.SignUpThenFallbackAccepts | src/pages/auth/sign-up.jsx:35-46 | the sign-in fallback accepts the signed-up account with the same password and the email typed in any case or padding, logging in with the stored email |
| SignUp.WrongPasswordNotMatched | src/pages/auth/sign-up.jsx:36-41 | a different password is never matched against the signed-up account |
| AuthLanding.OAuthProvider | src/pages/AuthLanding.jsx:18-29 | exactly "google" and "apple" are providers, each with its fixed label, token and email |
| AuthLanding.LandingErrorText | src/pages/AuthLanding.jsx:70-74 | never empty: the body's `error`, then its `message`, then the error's message, then the fixed default |
| AuthLanding.LandingPrefersErrorField | src/pages/AuthLanding.jsx:70-74 | when the server body carries both fields, the landing page shows `error` while the normalised error's message is `message` |
| AuthLanding.LandingPage.constructor | src/pages/AuthLanding.jsx:32-34 | empty form, not loading, no message, no navigations |
| AuthLanding.LandingPage.OnMount | src/pages/AuthLanding.jsx:37-43 | an authenticated visitor goes to the dashboard with the storage untouched; anyone else has the session cleared and stays |
| AuthLanding.LandingPage.HandleChange | src/pages/AuthLanding.jsx:45-48 | only the named input changes |
| AuthLanding.LandingPage.HandleSubmit | src/pages/AuthLanding.jsx:50-79 | the trimmed email and password are sent; success saves a "password" session with the response token under the trimmed email and goes to the dashboard; failure shows the landing message and writes nothing; loading ends either way |
| AuthLanding.LandingPage.HandleOAuth | src/pages/AuthLanding.jsx:81-98 | the message is cleared; an unknown key does nothing else; a known one saves its fixed session under the key and goes to the dashboard |
| AuthLanding.OAuthSignsIn | src/pages/AuthLanding.jsx:89-93 | after an OAuth button the user is authenticated and the stored user holds the provider's email and key |
| AuthLanding.TokenlessLoginKeepsPreviousToken | src/pages/AuthLanding.jsx:62-66 | a login response without a token leaves the authentication state as it was |
| Profile.WithStoredEmail | src/pages/Profile.jsx:19-27 | a stored user with an email replaces the shown email and nothing else; otherwise the profile is unchanged |
| Profile.MergeProfile | src/pages/Profile.jsx:34-41 | every field comes from the server body, or from the fallback profile when the body's is missing or falsy |
| Profile.CompleteBodyShownAsIs | src/pages/Profile.jsx:34-41 | a body with every field present is shown exactly as sent |
| Profile.MergeIdempotent | src/pages/Profile.jsx:34-41 | merging a merged profile changes nothing, as no field of it is falsy |
| Profile.MissingEmailDropsStoredEmail | src/pages/Profile.jsx:19-41 | a body without an email shows the fallback email, even when the first effect had shown the stored user's |
| Profile.ServerPayloadIsFallback | backend/api/routes.py:18-24 | the backend's fixed profile payload merges to exactly the page's fallback profile |
| Profile.ProfileError | src/pages/Profile.jsx:46-50 | never empty: the body's message, then the error's message, then the fixed default |
| Profile.UserDetails | src/pages/Profile.jsx:64-72 | four cards in order: the email, the age in decimal, the weight in decimal followed by " kg", the goal |
| Profile.Shown | src/pages/Profile.jsx:110 | while loading every card but the email one reads "Loading..."; otherwise a card shows its value |
| Profile.LoadingHidesAllButEmail | src/pages/Profile.jsx:101-110 | while loading only the email card shows its value; once loaded all four do |
| Profile.AgeCardDistinguishesAges | src/pages/Profile.jsx:67 | two different non-negative ages never render the same age card |
| Profile.ProfilePage.constructor | src/pages/Profile.jsx:15-17 | the fallback profile, loading, no error, mounted |
| Profile.ProfilePage.ApplyStoredUser | src/pages/Profile.jsx:19-27 | the profile becomes the stored-email overlay of the old one; nothing else changes |
| Profile.ProfilePage.CompleteFetch | src/pages/Profile.jsx:29-58 | after unmounting nothing changes; otherwise a truthy body replaces the profile with the merge, a falsy one keeps it, a failure sets the error message, and loading ends |
| Profile.ProfilePage.Unmount | src/pages/Profile.jsx:59-61 | the page is marked unmounted and its state kept |
| TopNavbar.Capitalize | src/widgets/layout/top-navbar.jsx:35 | same length; each character that starts a word (a `\w` character at the start or after a non-`\w` one) is uppercased, every other character kept |
| TopNavbar.CapitalizeIdempotent | src/widgets/layout/top-navbar.jsx:35 | capitalising a label again changes nothing |
| TopNavbar.CapitalizeChangesCaseOnly | src/widgets/layout/top-navbar.jsx:35 | a label and its page name are equal once lowercased |
| TopNavbar.NavItems | src/widgets/layout/top-navbar.jsx:31-38 | one item per page, in order, each with the page's path and its capitalised name |
| TopNavbar.IsActive | src/widgets/layout/top-navbar.jsx:40-45 | home only at "/" or its own path, any other page by prefix; ActiveOnOwnPath, OnlyHomeMatchesExactly, PrefixMatchIgnoresSegments and RootActivatesOnlyHome state its behaviour |
| TopNavbar.ActiveOnOwnPath | src/widgets/layout/top-navbar.jsx:40-45 | every pill is active on its own path |
| TopNavbar.OnlyHomeMatchesExactly | src/widgets/layout/top-navbar.jsx:40-45 | below the home path the home pill is inactive, while any other pill stays active below its own path |
| TopNavbar.PrefixMatchIgnoresSegments | src/widgets/layout/top-navbar.jsx:44 | the prefix match is over characters: the profile pill is active on any pathname that begins with "/profile" |
| TopNavbar.RootActivatesOnlyHome | src/widgets/layout/top-navbar.jsx:40-45 | at "/" exactly the first page of the dashboard routes, the home page, is active |
| TopNavbar.ThemeClasses | src/widgets/layout/top-navbar.jsx:54-64 | "dark" and "transparent" have their own classes; every other sidebar type gets the white ones |
| TopNavbar.UnknownThemeIsWhite | src/widgets/layout/top-navbar.jsx:60-62 | an unknown sidebar type looks exactly like "white" |
| TopNavbar.PillClasses | src/widgets/layout/top-navbar.jsx:66-76 | a known colour gets its own classes; an unknown one the dark pill |
| TopNavbar.UnknownColorIsDark | src/widgets/layout/top-navbar.jsx:75 | an unknown colour looks exactly like "dark" |
| TopNavbar.ItemClasses | src/widgets/layout/top-navbar.jsx:99-103 | an active pill gets the colour's classes plus a shadow; an inactive one the muted classes |
| TopNavbar.ShownEmail | src/widgets/layout/top-navbar.jsx:120-124 | the email is shown exactly when the stored user has a non-empty one, and it is that email |
| TopNavbar.TopNavbarView.constructor | src/widgets/layout/top-navbar.jsx:22 | no navigations yet |
| TopNavbar.TopNavbarView.SignOut | src/widgets/layout/top-navbar.jsx:49-52 | the session is cleared, so nobody is authenticated, and the app goes to "/" |
| DashboardNavbar.Split | src/widgets/layout/dashboard-navbar.jsx:20 | at least one piece, none containing a slash |
| DashboardNavbar.JoinSplit | src/widgets/layout/dashboard-navbar.jsx:20 | splitting loses nothing: joining the pieces with "/" gives the pathname back |
| DashboardNavbar.SplitNoSlash | src/widgets/layout/dashboard-navbar.jsx:20 | a string without a slash is a single piece |
| DashboardNavbar.SplitAtSlash | src/widgets/layout/dashboard-navbar.jsx:20 | the pieces of `a/b` are the pieces of `a` followed by those of `b` |
| DashboardNavbar.NonEmpty | src/widgets/layout/dashboard-navbar.jsx:20 | every kept piece is non-empty and comes from the input, and no more pieces are kept than given |
| DashboardNavbar.NonEmptyConcat | src/widgets/layout/dashboard-navbar.jsx:20 | filtering distributes over concatenation |
| DashboardNavbar.Segments | src/widgets/layout/dashboard-navbar.jsx:20 | every segment is non-empty and has no slash |
| DashboardNavbar.SegmentsAtSlash | src/widgets/layout/dashboard-navbar.jsx:20 | the segments of `a/b` are those of `a` followed by those of `b` |
| DashboardNavbar.SlashesIgnored | src/widgets/layout/dashboard-navbar.jsx:20 | leading, trailing and doubled slashes do not change the segments |
| DashboardNavbar.TwoSegments | src/widgets/layout/dashboard-navbar.jsx:20 | `/layout/page` has exactly the segments layout and page |
| DashboardNavbar.Layout | src/widgets/layout/dashboard-navbar.jsx:20 | the first segment, or none exactly when there are no segments |
| DashboardNavbar.Page | src/widgets/layout/dashboard-navbar.jsx:20 | the second segment, or none exactly when there are fewer than two |
| DashboardNavbar.Heading | src/widgets/layout/dashboard-navbar.jsx:64-66 | the second segment when there is one, else "overview" |
| DashboardNavbar.HeadingIsPage | src/widgets/layout/dashboard-navbar.jsx:20-66 | on `/layout/page`, with or without a trailing slash, the heading is the page |
| DashboardNavbar.OneSegmentIsOverview | src/widgets/layout/dashboard-navbar.jsx:20-66 | on a one-segment pathname such as "/profile" the heading is "overview" |
| DashboardNavbar.DisplayedEmail | src/widgets/layout/dashboard-navbar.jsx:79 | the stored user's email when non-empty, else "Welcome back" |
| DashboardNavbar.UserProvider | src/widgets/layout/dashboard-navbar.jsx:82-84 | the stored user's provider when it is a string, else none |
| DashboardNavbar.ProviderLabel | src/widgets/layout/dashboard-navbar.jsx:82-86 | Google's and Apple's own labels; "Email session" for any other or no provider |
| DashboardNavbar.OAuthSessionShown | src/widgets/layout/dashboard-navbar.jsx:79-86 | after an OAuth sign-in on the landing page the bar shows that provider's email and label |
| DashboardNavbar.PasswordSessionShown | src/widgets/layout/dashboard-navbar.jsx:82-86 | after a password login on the landing page the bar shows "Email session" |
| DashboardNavbar.SignInSessionShown | src/widgets/layout/dashboard-navbar.jsx:82-86 | after the sign-in page's login, whose user record has no provider, the bar shows "Email session" |
| DashboardNavbar.DashboardNavbarView.constructor | src/widgets/layout/dashboard-navbar.jsx:21 | no navigations yet |
| DashboardNavbar.DashboardNavbarView.SignOut | src/widgets/layout/dashboard-navbar.jsx:24-27 | the session is cleared, so the bar would greet with "Welcome back", and the app goes to "/" |
| Text.Lower | src/pages/auth/sign-in.jsx:44 | same length; each ASCII capital becomes its small letter and every other character is kept |
| Text.LowerIdempotent | backend/api/routes.py:31 | lowercasing twice is lowercasing once |
| Text.Trim | src/pages/auth/sign-in.jsx:38 | no longer than the input, and neither starts nor ends with the chosen language's whitespace (JavaScript's `trim()` for the client, Python's `strip()` for the backend) |
| Text.TrimPadded | backend/api/routes.py:30 | for either language, surrounding whitespace is removed and the text between kept exactly |
| Text.SeparatorsStrippedOnlyByPython | backend/api/routes.py:30 | a leading separator 0x1C to 0x1F is removed by Python's `strip()` and kept by JavaScript's `trim()` |
| Text.TrimIdempotent | src/pages/AuthLanding.jsx:56 | for either language, trimming twice is trimming once |
| Text.FirstNonEmpty | src/api.js:19-22 | a logical-or chain of strings: empty exactly when every candidate is, otherwise one of the candidates |
| Text.FirstNonEmptyPicksEarliest | src/api.js:19-22 | the chain answers the first non-empty candidate |
| Text.NatToString | src/pages/Profile.jsx:67 | a non-empty run of decimal digits without a leading zero |
| Text.DigitsValueOfNatToString | src/pages/Profile.jsx:67 | reading the digits back gives the number |
| Text.NatToStringInjective | src/pages/Profile.jsx:67 | different numbers have different decimal texts |
| Text.IntToString | src/pages/Profile.jsx:67-68 | non-empty, starting with "-" exactly for negative numbers |
| Meals.WeekdayPeriodic | src/utils/meals.js:59 | weekdays repeat every seven days |

## Left out

- Network transport: the axios client with its 15-second timeout, `FormData`, Flask routing and request parsing. Every request's settled outcome is a parameter (`Api.Call`), and every backend route takes its request fields as arguments.
- Storage and persistence: the S3 upload, SQLite and the SQLAlchemy model, and the routes that only read the database (`get_meals`, the history and health routes). A route's database write is represented by the record it would store (`BackendRoutes.SavedMeal`).
- Library internals are inputs: `JSON.parse` and `JSON.stringify`, werkzeug's `secure_filename`, `uuid4().hex`, `strptime`, the clock, `random.choice`, and the classifier's and feature extractor's loading and inference. A stored item is either plain text or a JSON object whose values are strings or null; text that is not a JSON object does not parse.
- Dates: `new Date(text)` parsing and `toLocaleDateString` or `Intl` formatting are parameters. A date is a local day number with a time of day, with no time zones or daylight-saving shifts.
- Floating point: `Math.round`, the image scale factor and Python's `/` are exact rationals. `Number()` of a string is left out, since calories of the client are numbers, null, undefined or non-finite. Python's `round` on doubles agrees with the exact half-even rounding only while the quotient is exactly representable, so the model matches it for calorie values of ordinary size.
- Unicode: trimming, letter case, `\w` and Python's `str.title` are modelled on the ASCII repertoire. The ASCII whitespace differs between the two languages and both sets are modelled (Python's adds 0x1C to 0x1F). Non-ASCII whitespace (such as U+00A0 or U+0085) and non-ASCII letters are kept as they are.
- `Profile.Profile`: age and weight are whole numbers. The page would render a fractional value the server sent as it is, but the only profile the server sends has whole numbers.
- JavaScript object lookups: `oauthProviders[key]` and `colorMap[color]` are plain maps. A key such as "constructor", which JavaScript would resolve through the object's prototype, is treated as unknown.
- Timers: the 3000 ms and 2500 ms redirects of the processing page are pending-redirect fields that teardown cancels. The 600 ms delay before an OAuth session is saved is dropped.
- Hardware and the DOM: the camera capture of the dashboard (`getUserMedia`, the video element, canvas drawing), bitmap decoding, canvas encoding and `FileReader` data URLs. Their outcomes are parameters of the image and capture models.
- FoodLogDashboard's own `computeWeeklySeries` (src/pages/FoodLogDashboard.jsx:69-102) is not a separate member. It differs from the one in src/utils/meals.js only in taking the current time as reference date and in reading the weekday of the unnormalised date, which is the same day, so `Meals.ComputeWeeklySeries` with the clock passed as reference date models it. Both versions return the shared baseline array itself, not a copy (only `getDefaultWeeklyCalories` copies it); the model has no aliasing.
- `BackendRoutes.SaveMeal`: the name is a string, so a truthy non-string name is not represented; the database insert and commit are taken as succeeding.
- `BackendApp.PredictRoute`: writing the temporary file and inserting the history row can raise too, and those exceptions escape the route like a non-boto upload failure; the model takes both steps as succeeding.
- `BackendApp.Normalise`: `setdefault` adds "calories" to the predictor's own dictionary in place; the model returns a new map and does not capture that aliasing.
- `Predictor.ModelCache.PredictCalories`: `_prepare_image` and the classifier's output are inputs; the model covers which branch answers and with what keys.
- The model training script and the MobileNetV2 and joblib internals, whose only decision is the 450-kcal default that the label mapping already covers.
- React's scheduling of effects and state updates: each handler's state changes are applied in one step, in the order the source writes them. The sidebar controller (`setOpenSidenav`, `handleToggle`, the effect that closes the sidebar on navigation) and the `replace` flag of `navigate` are not modelled.
- Presentational code: JSX markup, class names beyond the navbar pill and theme selection, the configurator, sidenav, footer, cards, layouts, the static home page, and Login.jsx, which only navigates. The remaining context files only hold the sidebar settings.
- `Api.BuildImageUrl`: the API base URL comes from the build environment. `Api.ConfiguredBaseUrl` models that choice, but image URLs are built with the default base URL, that of a build without the variable.
