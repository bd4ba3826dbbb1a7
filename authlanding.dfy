/**
 * The landing page (src/pages/AuthLanding.jsx): a signed-in visitor is sent
 * to the dashboard and anyone else starts from a cleared session; the form
 * logs in against the server through `saveSession`, and the two OAuth
 * buttons store a fixed provider session.
 */
module AuthLanding {
  import opened Basics
  import Text
  import Api
  import Auth

  const HomePath := "/dashboard/home"
  const DefaultAuthError := "Unable to authenticate with those credentials."
  const PasswordProvider := "password"

  /** An entry of `oauthProviders`. */
  datatype Provider = Provider(caption: string, token: string, email: string)

  /** `oauthProviders[key]`: Google and Apple, nothing else. */
  function OAuthProvider(key: string): (p: Option<Provider>)
    ensures p.Some? <==> key == "google" || key == "apple"
    ensures key == "google" ==> p == Some(Provider("Continue with Google", "google_token_456", "user@gmail.com"))
    ensures key == "apple" ==> p == Some(Provider("Continue with Apple", "apple_token_789", "apple.user@icloud.com"))
  {
    if key == "google" then Some(Provider("Continue with Google", "google_token_456", "user@gmail.com"))
    else if key == "apple" then Some(Provider("Continue with Apple", "apple_token_789", "apple.user@icloud.com"))
    else None
  }

  /**
   * The message the landing page shows for a failed login. Unlike the other
   * pages it reads `data.error` before `data.message`.
   */
  function LandingErrorText(e: Api.ClientError): (m: string)
    ensures m != ""
    ensures e.data.None? ==> m == Text.FirstNonEmpty([e.message, DefaultAuthError])
    ensures e.data.Some? ==> m == Text.FirstNonEmpty([e.data.value.error, e.data.value.message, e.message, DefaultAuthError])
  {
    match e.data
    case None =>
      Text.FirstNonEmptyPicksEarliest([e.message, DefaultAuthError], if e.message != "" then 0 else 1);
      Text.FirstNonEmpty([e.message, DefaultAuthError])
    case Some(d) =>
      var candidates := [d.error, d.message, e.message, DefaultAuthError];
      var k := if d.error != "" then 0 else if d.message != "" then 1 else if e.message != "" then 2 else 3;
      Text.FirstNonEmptyPicksEarliest(candidates, k);
      Text.FirstNonEmpty(candidates)
  }

  /**
   * For a server error body with both fields the landing page shows the
   * `error` field, where the interceptor's message, and so every other
   * page, shows the `message` field.
   */
  lemma LandingPrefersErrorField(message: string, status: int, d: Api.ErrorData)
    requires d.error != "" && d.message != ""
    ensures var e := Api.NormalizeError(Api.TransportError(message, Some(Api.HttpResponse(status, Some(d)))));
      LandingErrorText(e) == d.error && e.message == d.message
  {
    var e := Api.NormalizeError(Api.TransportError(message, Some(Api.HttpResponse(status, Some(d)))));
    Text.FirstNonEmptyPicksEarliest([d.message, d.error, message], 0);
    Text.FirstNonEmptyPicksEarliest([d.error, d.message, e.message, DefaultAuthError], 0);
  }

  datatype Field = EmailField | PasswordField

  datatype Form = Form(email: string, password: string)

  /** `INITIAL_FORM`. */
  const InitialForm := Form("", "")

  class LandingPage {
    var form: Form
    var loading: bool
    var message: string
    /** Navigations made, in order. */
    var navigations: seq<string>

    constructor ()
      ensures form == InitialForm && !loading && message == "" && navigations == []
    {
      form := InitialForm;
      loading := false;
      message := "";
      navigations := [];
    }

    /** The mount effect: a signed-in visitor goes to the dashboard, anyone else starts signed out. */
    method OnMount(storage: Auth.LocalStorage)
      modifies this, storage
      ensures Auth.IsAuthenticated(old(storage.items)) ==>
        storage.items == old(storage.items) && navigations == old(navigations) + [HomePath]
      ensures !Auth.IsAuthenticated(old(storage.items)) ==>
        storage.items == Auth.SessionCleared(old(storage.items)) && navigations == old(navigations)
      ensures form == old(form) && loading == old(loading) && message == old(message)
    {
      if Auth.IsAuthenticated(storage.items) {
        navigations := navigations + [HomePath];
      } else {
        Auth.ClearSession(storage);
      }
    }

    /** `handleChange`: the named input takes the value. */
    method HandleChange(field: Field, value: string)
      modifies this
      ensures field == EmailField ==> form == old(form).(email := value)
      ensures field == PasswordField ==> form == old(form).(password := value)
      ensures loading == old(loading) && message == old(message) && navigations == old(navigations)
    {
      match field {
        case EmailField => form := form.(email := value);
        case PasswordField => form := form.(password := value);
      }
    }

    /**
     * `handleSubmit`: the trimmed email and the password are sent; a
     * response is saved as a password session under the trimmed email and
     * the page goes to the dashboard; a failure shows its message and
     * writes nothing.
     */
    method HandleSubmit(storage: Auth.LocalStorage, login: Api.Call<Api.LoginResponse>)
      returns (sent: Api.Credentials)
      modifies this, storage
      ensures sent == Api.Credentials(Text.Trim(Text.JavaScript, old(form).email), old(form).password)
      ensures form == old(form) && !loading
      ensures login.Succeeded? ==>
        && storage.items == Auth.SessionSaved(old(storage.items), login.value.token, sent.email, PasswordProvider)
        && navigations == old(navigations) + [HomePath]
        && message == ""
      ensures login.Failed? ==>
        && message == LandingErrorText(Api.NormalizeError(login.error))
        && storage.items == old(storage.items)
        && navigations == old(navigations)
    {
      sent := Api.Credentials(Text.Trim(Text.JavaScript, form.email), form.password);
      message := "";
      loading := true;
      match login {
        case Succeeded(response) =>
          Auth.SaveSession(storage, response.token, sent.email, PasswordProvider);
          navigations := navigations + [HomePath];
        case Failed(e) =>
          message := LandingErrorText(Api.NormalizeError(e));
      }
      loading := false;
    }

    /**
     * `handleOAuth`: the message is cleared first; an unknown provider then
     * does nothing more; a known one saves its fixed session under the
     * provider's key and goes to the dashboard.
     */
    method HandleOAuth(storage: Auth.LocalStorage, key: string)
      modifies this, storage
      ensures message == "" && form == old(form)
      ensures OAuthProvider(key).None? ==>
        storage.items == old(storage.items) && loading == old(loading) && navigations == old(navigations)
      ensures OAuthProvider(key).Some? ==>
        var p := OAuthProvider(key).value;
        && storage.items == Auth.SessionSaved(old(storage.items), p.token, p.email, key)
        && navigations == old(navigations) + [HomePath]
        && !loading
    {
      message := "";
      var provider := OAuthProvider(key);
      if provider.None? {
        return;
      }
      loading := true;
      Auth.SaveSession(storage, provider.value.token, provider.value.email, key);
      navigations := navigations + [HomePath];
      loading := false;
    }
  }

  /** An OAuth button signs the user in and records the provider's key and email. */
  lemma OAuthSignsIn(items: map<string, Auth.Item>, key: string)
    requires OAuthProvider(key).Some?
    ensures var p := OAuthProvider(key).value;
      var r := Auth.SessionSaved(items, p.token, p.email, key);
      && Auth.IsAuthenticated(r)
      && Auth.GetUser(r) == Some(map["email" := Auth.JString(p.email), "provider" := Auth.JString(key)])
  {
    var p := OAuthProvider(key).value;
    Auth.SavedTokenAuthenticates(items, p.token, p.email, key);
    Auth.SavedUserReadBack(items, p.token, p.email, key);
  }

  /** A server login that returns no token leaves the previous token in place. */
  lemma TokenlessLoginKeepsPreviousToken(items: map<string, Auth.Item>, email: string)
    ensures Auth.IsAuthenticated(Auth.SessionSaved(items, "", email, PasswordProvider)) <==> Auth.IsAuthenticated(items)
  {
    Auth.SaveWithoutTokenKeepsState(items, email, PasswordProvider);
  }
}
