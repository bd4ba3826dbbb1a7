/**
 * The API blueprint of the backend (backend/api/routes.py): the test-user
 * login, the fixed profile, the upload and local prediction endpoints with
 * their checks in order, and the validation of a meal to save. File
 * storage, the database and the clock are left to inputs: the sanitised
 * name, the uuid, the predictor's result, the parsed date and today's date
 * are given.
 */
module BackendRoutes {
  import opened Basics
  import Text
  import Http
  import BackendUtils
  import Predictor
  import Profile

  /** `TEST_USERS`. */
  const TestUsers: map<string, string> := map["momeni.salar@gmail.com" := "1234", "test@example.com" := "1234"]

  const LoginToken := "valid_token_123"
  const MissingCredentials := "Email and password are required."
  const InvalidCredentials := "Invalid credentials"

  datatype LoginBody = LoginBody(token: string, message: string, email: string)

  /**
   * `login`, with the body's email and password ("" when missing or falsy):
   * the trimmed email is looked up in lower case and answered in the casing
   * it was sent.
   */
  function Login(email: string, password: string): (reply: Http.Reply<LoginBody>)
    ensures Text.Lower(Text.Trim(Text.Python, email)) == "" || password == "" ==>
      reply == Http.Failure(400, MissingCredentials, "")
    ensures reply.Success? <==>
      password != "" && Text.Lower(Text.Trim(Text.Python, email)) in TestUsers && TestUsers[Text.Lower(Text.Trim(Text.Python, email))] == password
    ensures reply.Success? ==> reply == Http.Success(200, LoginBody(LoginToken, "Login successful", Text.Trim(Text.Python, email)))
    ensures Text.Lower(Text.Trim(Text.Python, email)) != "" && password != "" && reply.Failure? ==>
      reply == Http.Failure(401, InvalidCredentials, "")
  {
    var rawEmail := Text.Trim(Text.Python, email);
    var key := Text.Lower(rawEmail);
    if key == "" || password == "" then Http.Failure(400, MissingCredentials, "")
    else
      var expected := if key in TestUsers then TestUsers[key] else "";
      if expected != "" && expected == password then
        Http.Success(200, LoginBody(LoginToken, "Login successful", if rawEmail != "" then rawEmail else key))
      else Http.Failure(401, InvalidCredentials, "")
  }

  /** The login answer depends on the email only through its trimmed lowercase form, apart from the echoed casing. */
  lemma LoginIgnoresCaseAndSpace(a: string, b: string, password: string)
    requires Text.Lower(Text.Trim(Text.Python, a)) == Text.Lower(Text.Trim(Text.Python, b))
    ensures Login(a, password).Success? <==> Login(b, password).Success?
    ensures Login(a, password).Failure? ==> Login(a, password) == Login(b, password)
  {
  }

  /** Both test users sign in with "1234" however their email is cased or padded. */
  lemma TestUsersSignIn(email: string)
    requires Text.Lower(Text.Trim(Text.Python, email)) in TestUsers
    ensures Login(email, "1234").Success?
    ensures Login(email, "1234").body.email == Text.Trim(Text.Python, email)
  {
    TestPassword(Text.Lower(Text.Trim(Text.Python, email)));
  }

  /**
   * `str.strip()` also removes the ASCII separators 0x1C to 0x1F, so a test
   * user's email preceded by one still signs in and is echoed without it.
   */
  lemma SeparatorPaddedEmailSignsIn(c: char, email: string)
    requires '\U{1C}' <= c <= '\U{1F}'
    requires email != [] && !Text.IsWhitespace(Text.Python, email[0]) && !Text.IsWhitespace(Text.Python, email[|email| - 1])
    requires Text.Lower(email) in TestUsers
    ensures Login([c] + email, "1234") == Http.Success(200, LoginBody(LoginToken, "Login successful", email))
  {
    Text.SeparatorsStrippedOnlyByPython(c, email);
    var padded := [c] + email;
    assert Text.Trim(Text.Python, padded) == email;
    TestUsersSignIn(padded);
  }

  /** Every test user's password is "1234". */
  lemma TestPassword(key: string)
    requires key in TestUsers
    ensures TestUsers[key] == "1234"
  {
  }

  /** `PROFILE_PAYLOAD`. */
  const ProfilePayload := Profile.ProfileData("Salar Momeni", "momeni.salar@gmail.com", 25, 72, "Maintain healthy weight")

  /** `profile`: the fixed payload, which the profile page merges into its own fallback profile. */
  function ProfileRoute(): (reply: Http.Reply<Profile.ProfileData>)
    ensures reply.Success? && reply.status == 200
    ensures Profile.MergeProfile(reply.body) == Profile.FallbackProfile
  {
    Http.Success(200, ProfilePayload)
  }

  /** The upload answer: the stored name and its path relative to the server (`"success": true` besides). */
  datatype UploadBody = UploadBody(filename: string, path: string)

  const NoImage := "No image provided"
  const EmptyFilename := "Empty filename"
  const UnsupportedFormat := "Unsupported file format"

  /** The checks shared by both upload endpoints, in order: a part, a name, an allowed extension. */
  function CheckUpload(files: map<string, Http.UploadedFile>, key: string): (error: Option<string>)
    ensures key !in files ==> error == Some(NoImage)
    ensures key in files && files[key].filename == "" ==> error == Some(EmptyFilename)
    ensures key in files && files[key].filename != "" ==>
      error == if BackendUtils.AllowedFile(files[key].filename) then None else Some(UnsupportedFormat)
  {
    if key !in files then Some(NoImage)
    else if files[key].filename == "" then Some(EmptyFilename)
    else if !BackendUtils.AllowedFile(files[key].filename) then Some(UnsupportedFormat)
    else None
  }

  /**
   * `upload_image`: `sanitized` is `secure_filename` of the part's name and
   * `hex` the uuid; the file lands in `folder` and the answer names it.
   */
  function UploadImage(files: map<string, Http.UploadedFile>, folder: string, sanitized: string, hex: string): (reply: Http.Reply<UploadBody>)
    ensures CheckUpload(files, "image").Some? ==> reply == Http.Failure(400, CheckUpload(files, "image").value, "")
    ensures CheckUpload(files, "image").None? ==>
      var name := BackendUtils.BaseName(BackendUtils.StoredPath(folder, sanitized, hex));
      reply == Http.Success(200, UploadBody(name, "uploads/" + name))
  {
    match CheckUpload(files, "image")
    case Some(error) => Http.Failure(400, error, "")
    case None =>
      var name := BackendUtils.BaseName(BackendUtils.StoredPath(folder, sanitized, hex));
      Http.Success(200, UploadBody(name, "uploads/" + name))
  }

  /**
   * An accepted upload answers with the stored "meal_" name and its path
   * under "uploads/", given that the sanitised name has no separator and
   * the uuid is 32 hex digits.
   */
  lemma UploadAnswersStoredName(files: map<string, Http.UploadedFile>, folder: string, sanitized: string, hex: string)
    requires CheckUpload(files, "image").None?
    requires BackendUtils.IsHex32(hex) && BackendUtils.Lacks(sanitized, '/')
    ensures var reply := UploadImage(files, folder, sanitized, hex);
      && reply.Success?
      && reply.body.filename == BackendUtils.StoredName(sanitized, hex)
      && reply.body.path == "uploads/" + BackendUtils.StoredName(sanitized, hex)
      && reply.body.filename[..5] == "meal_"
  {
  }

  /** `predict`: the upload checks on the chosen part, then the predictor's result or its exception as a 500. */
  function PredictRoute(files: map<string, Http.UploadedFile>, prediction: Result<Predictor.Prediction, string>): (reply: Http.Reply<Predictor.Prediction>)
    ensures CheckUpload(files, Http.UploadKey(files)).Some? ==>
      reply == Http.Failure(400, CheckUpload(files, Http.UploadKey(files)).value, "")
    ensures CheckUpload(files, Http.UploadKey(files)).None? && prediction.Err? ==>
      reply == Http.Failure(500, "Prediction failed", prediction.error)
    ensures reply.Success? <==> CheckUpload(files, Http.UploadKey(files)).None? && prediction.Ok?
    ensures reply.Success? ==> reply == Http.Success(200, prediction.value)
  {
    match CheckUpload(files, Http.UploadKey(files))
    case Some(error) => Http.Failure(400, error, "")
    case None =>
      match prediction
      case Err(details) => Http.Failure(500, "Prediction failed", details)
      case Ok(p) => Http.Success(200, p)
  }

  /** A "photo" part is used whenever it is present, whatever the "image" part holds. */
  lemma PhotoPreferred(files: map<string, Http.UploadedFile>, image: Http.UploadedFile, prediction: Result<Predictor.Prediction, string>)
    requires "photo" in files
    ensures PredictRoute(files["image" := image], prediction) == PredictRoute(files, prediction)
  {
    var other := files["image" := image];
    assert Http.UploadKey(other) == "photo" && other["photo"] == files["photo"];
  }

  /** `calories` of a meal to save: absent or null, convertible by `int()` to `value`, or not convertible. */
  /**
   * What `int(calories)` does with a present value: a whole number, a
   * TypeError or ValueError (caught), or an OverflowError for an infinite
   * float (not caught).
   */
  datatype CaloriesField = Missing | Convertible(value: int) | Unconvertible | Overflowing(message: string)

  /** The meal body: `name` ("" when missing or falsy), `calories`, `date` ("" when missing or falsy). */
  datatype MealPayload = MealPayload(name: string, calories: CaloriesField, date: string)

  /**
   * What `strptime(date, "%Y-%m-%d")` does with a present date: the day, a
   * ValueError (caught), or a TypeError for a value that is not a string
   * (not caught).
   */
  datatype DateParse = Parsed(day: int) | BadValue | BadType(message: string)

  /** A meal as it is stored: its name, whole calories and day; the payload's image is not kept. */
  datatype SavedMeal = SavedMeal(name: string, calories: int, day: int)

  const MissingMealFields := "Meal name and calories are required."
  const NotAnInteger := "Calories must be an integer."
  const BadDate := "Date must be in YYYY-MM-DD format."

  /**
   * `save_meal`: `parsed` is what `strptime` does with the payload's date
   * (looked at only when the date is present), `today` the server's
   * current day. An exception the route does not catch is `Unhandled`.
   */
  function SaveMeal(payload: MealPayload, parsed: DateParse, today: int): (reply: Http.Reply<SavedMeal>)
    ensures payload.name == "" || payload.calories.Missing? ==> reply == Http.Failure(400, MissingMealFields, "")
    ensures payload.name != "" && payload.calories.Unconvertible? ==> reply == Http.Failure(400, NotAnInteger, "")
    ensures payload.name != "" && payload.calories.Overflowing? ==> reply == Http.Unhandled(payload.calories.message)
    ensures payload.name != "" && payload.calories.Convertible? && payload.date != "" && parsed.BadValue? ==>
      reply == Http.Failure(400, BadDate, "")
    ensures payload.name != "" && payload.calories.Convertible? && payload.date != "" && parsed.BadType? ==>
      reply == Http.Unhandled(parsed.message)
    ensures reply.Unhandled? <==>
      payload.name != "" &&
      (payload.calories.Overflowing? || (payload.calories.Convertible? && payload.date != "" && parsed.BadType?))
    ensures reply.Success? <==>
      payload.name != "" && payload.calories.Convertible? && (payload.date == "" || parsed.Parsed?)
    ensures reply.Success? ==>
      reply == Http.Success(201, SavedMeal(payload.name, payload.calories.value,
                                           if payload.date != "" then parsed.day else today))
  {
    if payload.name == "" then Http.Failure(400, MissingMealFields, "")
    else match payload.calories
      case Missing => Http.Failure(400, MissingMealFields, "")
      case Unconvertible => Http.Failure(400, NotAnInteger, "")
      case Overflowing(message) => Http.Unhandled(message)
      case Convertible(calories) =>
        if payload.date == "" then Http.Success(201, SavedMeal(payload.name, calories, today))
        else match parsed
          case BadValue => Http.Failure(400, BadDate, "")
          case BadType(message) => Http.Unhandled(message)
          case Parsed(day) => Http.Success(201, SavedMeal(payload.name, calories, day))
  }

  /** Zero calories are accepted: only a missing value is refused. */
  lemma ZeroCaloriesAccepted(name: string, parsed: DateParse, today: int)
    requires name != ""
    ensures SaveMeal(MealPayload(name, Convertible(0), ""), parsed, today) == Http.Success(201, SavedMeal(name, 0, today))
  {
  }
}
