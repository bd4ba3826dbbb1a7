/**
 * The client's API helpers (src/api.js): image URL resolution, the response
 * interceptor's error normalisation and the `getMeals` array guard. The
 * transport itself (axios, FormData, the 15 s timeout) is not modelled.
 */
module Api {
  import opened Basics
  import Text
  import Meals

  /** The fallback base URL used when VITE_API_BASE_URL is not configured. */
  const DefaultBaseUrl := "http://127.0.0.1:5000"

  /** `import.meta.env.VITE_API_BASE_URL || "http://127.0.0.1:5000"`. */
  function ConfiguredBaseUrl(configured: string): (r: string)
    ensures r != ""
    ensures configured != "" ==> r == configured
  {
    if configured != "" then configured else DefaultBaseUrl
  }

  /** The base URL of a build without VITE_API_BASE_URL (`ConfiguredBaseUrl("")`). */
  const ApiBaseUrl := DefaultBaseUrl

  const PlaceholderImage := "/img/home-decor-1.jpeg"

  /** `.replace(/^\/+/, "")`. */
  function StripLeadingSlashes(s: string): (r: string)
    ensures |r| <= |s| && r == s[|s| - |r|..]
    ensures r == [] || r[0] != '/'
    ensures forall i :: 0 <= i < |s| - |r| ==> s[i] == '/'
  {
    if |s| > 0 && s[0] == '/' then StripLeadingSlashes(s[1..]) else s
  }

  const UploadsPrefix := "uploads/"

  /** Removes one leading "uploads/" if present. */
  function StripUploadsPrefix(s: string): (r: string)
    ensures Text.StartsWith(s, UploadsPrefix) ==> s == UploadsPrefix + r
    ensures !Text.StartsWith(s, UploadsPrefix) ==> r == s
  {
    if Text.StartsWith(s, UploadsPrefix) then
      assert s == s[..|UploadsPrefix|] + s[|UploadsPrefix|..];
      s[|UploadsPrefix|..]
    else s
  }

  /** The path of an uploaded file below the uploads route. */
  function UploadPath(value: string): string {
    StripUploadsPrefix(StripLeadingSlashes(Text.ReplaceChar(value, '\\', '/')))
  }

  /** `buildImageUrl`: "" for no value, absolute values untouched, otherwise a URL below `/uploads/`. */
  function BuildImageUrl(value: string): (r: string)
    ensures value == "" ==> r == ""
    ensures value != "" && Text.StartsWith(value, "http") ==> r == value
    ensures value != "" && !Text.StartsWith(value, "http") ==>
      r == ApiBaseUrl + "/uploads/" + UploadPath(value)
  {
    if value == "" then ""
    else if Text.StartsWith(value, "http") then value
    else ApiBaseUrl + "/uploads/" + UploadPath(value)
  }

  /** `resolveBackendImage`: the built URL, or the placeholder image. */
  function ResolveBackendImage(value: string): (r: string)
    ensures r != ""
    ensures value == "" ==> r == PlaceholderImage
    ensures value != "" ==> r == BuildImageUrl(value)
  {
    var url := BuildImageUrl(value);
    if url != "" then url else PlaceholderImage
  }

  predicate NoBackslash(s: string) {
    forall i :: 0 <= i < |s| ==> s[i] != '\\'
  }

  /** The path part of a relative reference never carries a backslash. */
  lemma UploadPathHasNoBackslash(value: string)
    ensures NoBackslash(UploadPath(value))
  {
    var replaced := Text.ReplaceChar(value, '\\', '/');
    assert NoBackslash(replaced);
    var stripped := StripLeadingSlashes(replaced);
    SuffixKeepsNoBackslash(replaced, |replaced| - |stripped|);
    if Text.StartsWith(stripped, UploadsPrefix) {
      SuffixKeepsNoBackslash(stripped, |UploadsPrefix|);
    }
  }

  lemma SuffixKeepsNoBackslash(s: string, k: nat)
    requires k <= |s| && NoBackslash(s)
    ensures NoBackslash(s[k..])
  {
    assert forall i :: 0 <= i < |s| - k ==> s[k..][i] == s[k + i];
  }

  /** A reference without backslashes or leading slashes only loses a leading "uploads/". */
  lemma UploadPathOfPlainReference(value: string)
    requires NoBackslash(value) && (value == [] || value[0] != '/')
    ensures UploadPath(value) == StripUploadsPrefix(value)
  {
    assert Text.ReplaceChar(value, '\\', '/') == value;
  }

  /** "uploads/x" and "x" resolve to the same URL. */
  lemma UploadsPrefixIsOptional(rest: string)
    requires rest != "" && !Text.StartsWith(rest, "http")
    requires NoBackslash(rest) && rest[0] != '/' && !Text.StartsWith(rest, UploadsPrefix)
    ensures BuildImageUrl(UploadsPrefix + rest) == BuildImageUrl(rest)
  {
    var full := UploadsPrefix + rest;
    assert !Text.StartsWith(full, "http") by {
      assert full[0] == 'u' && "http"[0] == 'h';
    }
    assert NoBackslash(full) by {
      assert forall i :: 0 <= i < |full| ==> full[i] == if i < 8 then UploadsPrefix[i] else rest[i - 8];
    }
    UploadPathOfPlainReference(full);
    UploadPathOfPlainReference(rest);
    assert full[..8] == UploadsPrefix;
    assert full[8..] == rest;
  }

  /** A leading "uploads/" is removed exactly once, whatever follows it. */
  lemma StripUploadsPrefixOnce(t: string)
    ensures StripUploadsPrefix(UploadsPrefix + t) == t
  {
    var s := UploadsPrefix + t;
    assert s[..|UploadsPrefix|] == UploadsPrefix;
    assert s[|UploadsPrefix|..] == t;
  }

  /** Only one "uploads/" is removed: a doubled prefix keeps the second one. */
  lemma OnlyOneUploadsPrefixRemoved(rest: string)
    requires NoBackslash(rest)
    ensures BuildImageUrl(UploadsPrefix + UploadsPrefix + rest) == ApiBaseUrl + "/uploads/" + UploadsPrefix + rest
  {
    var tail := UploadsPrefix + rest;
    var full := UploadsPrefix + tail;
    assert full == UploadsPrefix + UploadsPrefix + rest;
    assert !Text.StartsWith(full, "http") by {
      assert full[0] == 'u' && "http"[0] == 'h';
    }
    assert NoBackslash(full) by {
      assert forall i :: 0 <= i < |full| ==> full[i] == if i < 16 then (UploadsPrefix + UploadsPrefix)[i] else rest[i - 16];
    }
    UploadPathOfPlainReference(full);
    StripUploadsPrefixOnce(tail);
  }

  // ---- Error normalisation ----

  /** The JSON body of an error response, with "" for a missing key. */
  datatype ErrorData = ErrorData(message: string, error: string)

  datatype HttpResponse = HttpResponse(status: int, data: Option<ErrorData>)

  /** A rejected request: the transport message, the response if there was one, and the fields the interceptor attaches. */
  datatype ClientError = ClientError(
    message: string,
    response: Option<HttpResponse>,
    data: Option<ErrorData>,
    status: Option<int>)

  /** An error as the transport raises it, before the interceptor has run. */
  function TransportError(message: string, response: Option<HttpResponse>): ClientError {
    ClientError(message, response, None, None)
  }

  /**
   * The response interceptor: with response data, the message becomes
   * `data.message || data.error || message` and `data` and `status` are
   * attached; without response data the error is passed on untouched.
   */
  function NormalizeError(e: ClientError): (r: ClientError)
    ensures e.response.None? || e.response.value.data.None? ==> r == e
    ensures e.response.Some? && e.response.value.data.Some? ==>
      var d := e.response.value.data.value;
      && r.message == Text.FirstNonEmpty([d.message, d.error, e.message])
      && r.data == Some(d)
      && r.status == Some(e.response.value.status)
      && r.response == e.response
  {
    match e.response
    case Some(HttpResponse(status, Some(d))) =>
      e.(message := Text.FirstNonEmpty([d.message, d.error, e.message]), data := Some(d), status := Some(status))
    case _ => e
  }

  /** Normalising twice changes nothing more than normalising once, for every error. */
  lemma NormalizeErrorIdempotent(e: ClientError)
    ensures NormalizeError(NormalizeError(e)) == NormalizeError(e)
  {
    if e.response.Some? && e.response.value.data.Some? {
      var d := e.response.value.data.value;
      var once := NormalizeError(e);
      if d.message != "" || d.error != "" || e.message != "" {
        var k := if d.message != "" then 0 else if d.error != "" then 1 else 2;
        Text.FirstNonEmptyPicksEarliest([d.message, d.error, e.message], k);
        Text.FirstNonEmptyPicksEarliest([d.message, d.error, once.message], k);
      }
    }
  }

  /** The message a page shows for a failed request: `data.message || data.error || message || fallback`. */
  function ErrorText(e: ClientError, fallback: string): (m: string)
    ensures fallback != "" ==> m != ""
    ensures e.data.None? ==> m == Text.FirstNonEmpty([e.message, fallback])
    ensures e.data.Some? ==> m == Text.FirstNonEmpty([e.data.value.message, e.data.value.error, e.message, fallback])
  {
    var d := e.data.GetOr(ErrorData("", ""));
    var candidates := [d.message, d.error, e.message, fallback];
    assert candidates[3] == fallback;
    var m := Text.FirstNonEmpty(candidates);
    if e.data.None? then
      assert m == Text.FirstNonEmpty([e.message, fallback]) by {
        if e.message != "" {
          Text.FirstNonEmptyPicksEarliest(candidates, 2);
          Text.FirstNonEmptyPicksEarliest([e.message, fallback], 0);
        } else if fallback != "" {
          Text.FirstNonEmptyPicksEarliest(candidates, 3);
          Text.FirstNonEmptyPicksEarliest([e.message, fallback], 1);
        }
      }
      m
    else m
  }

  /**
   * A page that repeats the interceptor's priority shows, for a server error
   * body, its message, else its error, else the transport message.
   */
  lemma ErrorTextAfterInterceptor(message: string, status: int, d: ErrorData, fallback: string)
    requires d.message != "" || d.error != "" || message != ""
    ensures ErrorText(NormalizeError(TransportError(message, Some(HttpResponse(status, Some(d))))), fallback)
      == Text.FirstNonEmpty([d.message, d.error, message])
  {
    var e := NormalizeError(TransportError(message, Some(HttpResponse(status, Some(d)))));
    var k := if d.message != "" then 0 else if d.error != "" then 1 else 2;
    Text.FirstNonEmptyPicksEarliest([d.message, d.error, message], k);
    Text.FirstNonEmptyPicksEarliest([d.message, d.error, e.message, fallback], k);
  }

  /** What a request did: resolved with a body, or rejected before the interceptor ran. */
  datatype Call<+T> = Succeeded(value: T) | Failed(error: ClientError)

  /** A `/login` request body. */
  datatype Credentials = Credentials(email: string, password: string)

  /** A `/login` response body; "" where a key is missing. */
  datatype LoginResponse = LoginResponse(token: string, email: string)

  // ---- getMeals ----

  /** A `/meals` response body: an array of records, or anything else. */
  datatype MealsPayload = MealList(items: seq<Meals.MealRecord>) | NotAList

  /** `getMeals`: the array as it came, or [] for any other body. */
  function GetMeals(payload: MealsPayload): (r: seq<Meals.MealRecord>)
    ensures payload.NotAList? ==> r == []
    ensures payload.MealList? ==> r == payload.items
  {
    match payload
    case MealList(items) => items
    case NotAList => []
  }
}
