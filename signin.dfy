/**
 * The sign-in page (src/pages/auth/sign-in.jsx): the server login, the
 * offline fallback through a stored test user, and the demo account. The
 * page writes localStorage directly rather than through `saveSession`.
 */
module SignIn {
  import opened Basics
  import Text
  import Api
  import Auth

  const HomePath := "/dashboard/home"
  const TestToken := "test_token"
  const DefaultSignInError := "We could not sign you in. Please check your credentials."
  const DemoEmail := "test-user@foodlog.test"
  const DemoPassword := "demo1234"

  /** The `{email, password}` object stored under the test-user key. */
  function TestUserRecord(email: string, password: string): (fields: map<string, Auth.JsonValue>)
    ensures "email" in fields && "password" in fields
    ensures fields["email"] == Auth.JString(email) && fields["password"] == Auth.JString(password)
  {
    map["email" := Auth.JString(email), "password" := Auth.JString(password)]
  }

  /** The email `completeLogin` stores: the given one trimmed, else the form's trimmed. */
  function LoginEmail(email: string, formEmail: string): (r: string)
    ensures Text.Trim(Text.JavaScript, email) != "" ==> r == Text.Trim(Text.JavaScript, email)
    ensures Text.Trim(Text.JavaScript, email) == "" ==> r == Text.Trim(Text.JavaScript, formEmail)
  {
    if Text.Trim(Text.JavaScript, email) != "" then Text.Trim(Text.JavaScript, email) else Text.Trim(Text.JavaScript, formEmail)
  }

  /** The storage after `completeLogin(token, email)`, the form holding `formEmail`. */
  function LoggedIn(items: map<string, Auth.Item>, token: string, email: string, formEmail: string)
    : map<string, Auth.Item>
  {
    items[Auth.TokenKey := Auth.Plain(if token != "" then token else TestToken)]
         [Auth.UserKey := Auth.JsonObject(map["email" := Auth.JString(LoginEmail(email, formEmail))])]
  }

  /**
   * After `completeLogin` the user is signed in with the given token or the
   * test token, the stored user holds the normalised email, and every other
   * key is as it was.
   */
  lemma LoggedInSignsIn(items: map<string, Auth.Item>, token: string, email: string, formEmail: string)
    ensures var r := LoggedIn(items, token, email, formEmail);
      && Auth.IsAuthenticated(r)
      && r[Auth.TokenKey] == Auth.Plain(if token != "" then token else TestToken)
      && Auth.GetUser(r) == Some(map["email" := Auth.JString(LoginEmail(email, formEmail))])
      && Auth.UserEmail(Auth.GetUser(r)) == LoginEmail(email, formEmail)
      && forall k :: k != Auth.TokenKey && k != Auth.UserKey ==> (k in r <==> k in items) && (k in items ==> r[k] == items[k])
  {
    var r := LoggedIn(items, token, email, formEmail);
    assert Auth.TokenKey != Auth.UserKey;
    assert r[Auth.TokenKey] == Auth.Plain(if token != "" then token else TestToken);
  }

  /**
   * The storage after a test account is set up, by the demo button or by a
   * sign-up: the `{email, password}` test user, the test token, and the user
   * record holding the email.
   */
  function TestAccountStored(items: map<string, Auth.Item>, email: string, password: string): map<string, Auth.Item> {
    items[Auth.TestUserKey := Auth.JsonObject(TestUserRecord(email, password))]
         [Auth.TokenKey := Auth.Plain(TestToken)]
         [Auth.UserKey := Auth.JsonObject(map["email" := Auth.JString(email)])]
  }

  /** A test account signs the user in with the test token and stores its email as the user. */
  lemma TestAccountSignsIn(items: map<string, Auth.Item>, email: string, password: string)
    ensures var r := TestAccountStored(items, email, password);
      && Auth.IsAuthenticated(r)
      && Auth.GetToken(r) == Some(Auth.Plain(TestToken))
      && Auth.UserEmail(Auth.GetUser(r)) == email
  {
    Auth.KeysDistinct();
    var r := TestAccountStored(items, email, password);
    assert r[Auth.TokenKey] == Auth.Plain(TestToken);
    assert r[Auth.UserKey] == Auth.JsonObject(map["email" := Auth.JString(email)]);
  }

  /** How the fallback decides: the stored test user matches, a new test user is made, or it gives up. */
  datatype Fallback = MatchedStored(email: string) | NewTestUser(email: string) | Rejected

  /**
   * Whether the stored test user matches: its email equals the trimmed form
   * email ignoring case and its password equals the form password exactly.
   * Text not written as a JSON object does not parse.
   */
  function StoredMatch(items: map<string, Auth.Item>, formEmail: string, formPassword: string): (r: Option<string>)
    ensures r.Some? <==>
      && Auth.TestUserKey in items && items[Auth.TestUserKey].JsonObject?
      && var f := items[Auth.TestUserKey].fields;
         "email" in f && f["email"].JString? && Text.Lower(f["email"].s) == Text.Lower(Text.Trim(Text.JavaScript, formEmail))
         && "password" in f && f["password"] == Auth.JString(formPassword)
    ensures r.Some? ==> r.value == items[Auth.TestUserKey].fields["email"].s
  {
    if Auth.TestUserKey !in items then None
    else match items[Auth.TestUserKey]
      case Plain(_) => None
      case JsonObject(f) =>
        if "email" in f && f["email"].JString? && Text.Lower(f["email"].s) == Text.Lower(Text.Trim(Text.JavaScript, formEmail))
           && "password" in f && f["password"] == Auth.JString(formPassword)
        then Some(f["email"].s)
        else None
  }

  /** `fallbackLogin`'s decision. */
  function FallbackDecision(items: map<string, Auth.Item>, formEmail: string, formPassword: string): (d: Fallback)
    ensures StoredMatch(items, formEmail, formPassword).Some? ==>
      d == MatchedStored(StoredMatch(items, formEmail, formPassword).value)
    ensures StoredMatch(items, formEmail, formPassword).None? ==>
      (d.NewTestUser? <==> Text.Contains(Text.Lower(Text.Trim(Text.JavaScript, formEmail)), "test"))
    ensures d.NewTestUser? ==> d.email == Text.Trim(Text.JavaScript, formEmail)
  {
    match StoredMatch(items, formEmail, formPassword)
    case Some(email) => MatchedStored(email)
    case None =>
      if Text.Contains(Text.Lower(Text.Trim(Text.JavaScript, formEmail)), "test") then NewTestUser(Text.Trim(Text.JavaScript, formEmail))
      else Rejected
  }

  /** Any email mentioning "test", in any case, gets the fallback account. */
  lemma TestEmailAlwaysAccepted(items: map<string, Auth.Item>, formEmail: string, formPassword: string, k: nat)
    requires var t := Text.Lower(Text.Trim(Text.JavaScript, formEmail)); k + 4 <= |t| && t[k..k + 4] == "test"
    ensures !FallbackDecision(items, formEmail, formPassword).Rejected?
  {
    Text.ContainsAt(Text.Lower(Text.Trim(Text.JavaScript, formEmail)), "test", k);
  }

  /**
   * The fallback compares against a stored test account and nothing else:
   * it matches exactly when the typed email equals the stored one ignoring
   * case and surrounding whitespace and the password is the same.
   */
  lemma TestAccountMatch(items: map<string, Auth.Item>, email: string, password: string,
                         typedEmail: string, typedPassword: string)
    ensures StoredMatch(TestAccountStored(items, email, password), typedEmail, typedPassword)
      == if Text.Lower(email) == Text.Lower(Text.Trim(Text.JavaScript, typedEmail)) && typedPassword == password then Some(email) else None
  {
    Auth.KeysDistinct();
    var r := TestAccountStored(items, email, password);
    assert r[Auth.TestUserKey] == Auth.JsonObject(TestUserRecord(email, password));
  }

  /** The two inputs of the form. */
  datatype Field = EmailField | PasswordField

  class SignInPage {
    var email: string
    var password: string
    var loading: bool
    var error: string
    /** Navigations made, in order. */
    var navigations: seq<string>

    constructor ()
      ensures email == "" && password == "" && !loading && error == "" && navigations == []
    {
      email := "";
      password := "";
      loading := false;
      error := "";
      navigations := [];
    }

    /** `handleChange`: the named input takes the value. */
    method HandleChange(field: Field, value: string)
      modifies this
      ensures field == EmailField ==> email == value && password == old(password)
      ensures field == PasswordField ==> password == value && email == old(email)
      ensures loading == old(loading) && error == old(error) && navigations == old(navigations)
    {
      match field {
        case EmailField => email := value;
        case PasswordField => password := value;
      }
    }

    /** `completeLogin`: token and user written, then the dashboard. */
    method CompleteLogin(storage: Auth.LocalStorage, token: string, givenEmail: string)
      modifies this, storage
      ensures storage.items == LoggedIn(old(storage.items), token, givenEmail, old(email))
      ensures navigations == old(navigations) + [HomePath]
      ensures email == old(email) && password == old(password) && loading == old(loading) && error == old(error)
    {
      var resolvedToken := if token != "" then token else TestToken;
      var normalizedEmail := LoginEmail(givenEmail, email);
      storage.SetItem(Auth.TokenKey, Auth.Plain(resolvedToken));
      storage.SetItem(Auth.UserKey, Auth.JsonObject(map["email" := Auth.JString(normalizedEmail)]));
      navigations := navigations + [HomePath];
    }

    /** `fallbackLogin`: follows the decision; a rejection writes nothing. */
    method FallbackLogin(storage: Auth.LocalStorage) returns (worked: bool)
      modifies this, storage
      ensures var d := FallbackDecision(old(storage.items), old(email), old(password));
        && (worked <==> !d.Rejected?)
        && (d.MatchedStored? ==> storage.items == LoggedIn(old(storage.items), TestToken, d.email, old(email)))
        && (d.NewTestUser? ==>
              storage.items ==
              LoggedIn(old(storage.items)[Auth.TestUserKey := Auth.JsonObject(TestUserRecord(d.email, old(password)))],
                       TestToken, d.email, old(email)))
        && (d.Rejected? ==> storage.items == old(storage.items) && navigations == old(navigations))
        && (!d.Rejected? ==> navigations == old(navigations) + [HomePath])
      ensures email == old(email) && password == old(password) && loading == old(loading) && error == old(error)
    {
      match FallbackDecision(storage.items, email, password) {
        case MatchedStored(storedEmail) =>
          CompleteLogin(storage, TestToken, storedEmail);
          worked := true;
        case NewTestUser(trimmedEmail) =>
          storage.SetItem(Auth.TestUserKey, Auth.JsonObject(TestUserRecord(trimmedEmail, password)));
          CompleteLogin(storage, TestToken, trimmedEmail);
          worked := true;
        case Rejected =>
          worked := false;
      }
    }

    /**
     * `handleSubmit`: a server login completes with the response; otherwise
     * the fallback runs, and only if it gives up is the error shown.
     */
    method HandleSubmit(storage: Auth.LocalStorage, login: Api.Call<Api.LoginResponse>)
      returns (sent: Api.Credentials)
      modifies this, storage
      ensures sent == Api.Credentials(Text.Trim(Text.JavaScript, old(email)), old(password))
      ensures !loading
      ensures email == old(email) && password == old(password)
      ensures login.Succeeded? ==>
        && storage.items == LoggedIn(old(storage.items), login.value.token, login.value.email, old(email))
        && error == "" && navigations == old(navigations) + [HomePath]
      ensures login.Failed? ==>
        var d := FallbackDecision(old(storage.items), old(email), old(password));
        && (d.Rejected? ==>
              && error == Api.ErrorText(Api.NormalizeError(login.error), DefaultSignInError)
              && storage.items == old(storage.items) && navigations == old(navigations))
        && (d.MatchedStored? ==>
              && storage.items == LoggedIn(old(storage.items), TestToken, d.email, old(email))
              && error == "" && navigations == old(navigations) + [HomePath])
        && (d.NewTestUser? ==>
              && storage.items ==
                 LoggedIn(old(storage.items)[Auth.TestUserKey := Auth.JsonObject(TestUserRecord(d.email, old(password)))],
                          TestToken, d.email, old(email))
              && error == "" && navigations == old(navigations) + [HomePath])
    {
      sent := Api.Credentials(Text.Trim(Text.JavaScript, email), password);
      error := "";
      loading := true;
      match login {
        case Succeeded(response) =>
          CompleteLogin(storage, response.token, response.email);
        case Failed(e) =>
          var fallbackWorked := FallbackLogin(storage);
          if !fallbackWorked {
            error := Api.ErrorText(Api.NormalizeError(e), DefaultSignInError);
          }
      }
      loading := false;
    }

    /**
     * The demo button: the form shows the demo credentials, the demo test
     * user is stored and the login completes with the test token.
     */
    method UseDemoAccount(storage: Auth.LocalStorage)
      modifies this, storage
      ensures email == DemoEmail && password == DemoPassword
      ensures storage.items == TestAccountStored(old(storage.items), DemoEmail, DemoPassword)
      ensures navigations == old(navigations) + [HomePath]
      ensures loading == old(loading) && error == old(error)
    {
      storage.SetItem(Auth.TestUserKey, Auth.JsonObject(TestUserRecord(DemoEmail, DemoPassword)));
      CompleteLogin(storage, TestToken, DemoEmail);
      DemoEmailIsTrimmed();
      assert LoginEmail(DemoEmail, old(email)) == DemoEmail;
      email, password := DemoEmail, DemoPassword;
    }
  }

  /** After the demo button the demo user is signed in under the demo email. */
  lemma DemoUserSignedIn(items: map<string, Auth.Item>)
    ensures Auth.IsAuthenticated(TestAccountStored(items, DemoEmail, DemoPassword))
    ensures Auth.UserEmail(Auth.GetUser(TestAccountStored(items, DemoEmail, DemoPassword))) == DemoEmail
  {
    TestAccountSignsIn(items, DemoEmail, DemoPassword);
  }

  /** After the demo button a later offline sign-in with the demo credentials is matched from storage. */
  lemma DemoUserMatchesLater(items: map<string, Auth.Item>)
    ensures StoredMatch(TestAccountStored(items, DemoEmail, DemoPassword), DemoEmail, DemoPassword) == Some(DemoEmail)
  {
    TestAccountMatch(items, DemoEmail, DemoPassword, DemoEmail, DemoPassword);
    DemoEmailIsTrimmed();
  }

  /** The demo email has no surrounding whitespace. */
  lemma DemoEmailIsTrimmed()
    ensures Text.Trim(Text.JavaScript, DemoEmail) == DemoEmail
  {
    Text.TrimPadded(Text.JavaScript, [], DemoEmail, []);
    assert [] + DemoEmail + [] == DemoEmail;
  }
}
