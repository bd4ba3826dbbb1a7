/**
 * The sign-up page (src/pages/auth/sign-up.jsx). Accounts are not sent to
 * the server: a matching pair of passwords stores a test user that the
 * sign-in fallback accepts later, and signs the user in with the test token.
 */
module SignUp {
  import opened Basics
  import Text
  import Auth
  import SignIn

  const PasswordMismatch := "Passwords do not match."

  /** The three inputs of the form. */
  datatype Field = EmailField | PasswordField | ConfirmField

  datatype Form = Form(email: string, password: string, confirmPassword: string)

  /** `initialForm`: every input empty. */
  const InitialForm := Form("", "", "")

  /** `handleChange`: the named input takes the value, the others keep theirs. */
  function Changed(form: Form, field: Field, value: string): (r: Form)
    ensures field == EmailField ==> r == form.(email := value)
    ensures field == PasswordField ==> r == form.(password := value)
    ensures field == ConfirmField ==> r == form.(confirmPassword := value)
  {
    match field
    case EmailField => form.(email := value)
    case PasswordField => form.(password := value)
    case ConfirmField => form.(confirmPassword := value)
  }

  /** The storage after a sign-up with matching passwords: a test account under the trimmed email. */
  function SignedUp(items: map<string, Auth.Item>, form: Form): map<string, Auth.Item> {
    SignIn.TestAccountStored(items, Text.Trim(Text.JavaScript, form.email), form.password)
  }

  /** The three writes of a sign-up, in the page's order. */
  method StoreAccount(storage: Auth.LocalStorage, email: string, password: string)
    modifies storage
    ensures storage.items == SignIn.TestAccountStored(old(storage.items), email, password)
  {
    storage.SetItem(Auth.TestUserKey, Auth.JsonObject(SignIn.TestUserRecord(email, password)));
    storage.SetItem(Auth.TokenKey, Auth.Plain(SignIn.TestToken));
    storage.SetItem(Auth.UserKey, Auth.JsonObject(map["email" := Auth.JString(email)]));
  }

  class SignUpPage {
    var form: Form
    var error: string
    /** Navigations made, in order. */
    var navigations: seq<string>

    constructor ()
      ensures form == InitialForm && error == "" && navigations == []
    {
      form := InitialForm;
      error := "";
      navigations := [];
    }

    method HandleChange(field: Field, value: string)
      modifies this
      ensures form == Changed(old(form), field, value)
      ensures error == old(error) && navigations == old(navigations)
    {
      form := Changed(form, field, value);
    }

    /**
     * `handleSubmit`: different passwords show the mismatch and store
     * nothing; otherwise the test user, the test token and the user record
     * are stored and the page goes to the dashboard.
     */
    method HandleSubmit(storage: Auth.LocalStorage)
      modifies this, storage
      ensures form == old(form)
      ensures old(form).password != old(form).confirmPassword ==>
        error == PasswordMismatch && storage.items == old(storage.items) && navigations == old(navigations)
      ensures old(form).password == old(form).confirmPassword ==>
        error == "" && storage.items == SignedUp(old(storage.items), old(form)) &&
        navigations == old(navigations) + [SignIn.HomePath]
    {
      error := "";
      ghost var items0 := storage.items;
      ghost var nav0 := navigations;
      if form.password != form.confirmPassword {
        error := PasswordMismatch;
        return;
      }
      var trimmedEmail := Text.Trim(Text.JavaScript, form.email);
      StoreAccount(storage, trimmedEmail, form.password);
      assert storage.items == SignedUp(items0, form);
      assert navigations == nav0;
      navigations := navigations + [SignIn.HomePath];
    }
  }

  /** A sign-up signs the user in with the test token and stores the trimmed email as the user. */
  lemma SignUpSignsIn(items: map<string, Auth.Item>, form: Form)
    ensures Auth.IsAuthenticated(SignedUp(items, form))
    ensures Auth.UserEmail(Auth.GetUser(SignedUp(items, form))) == Text.Trim(Text.JavaScript, form.email)
  {
    SignIn.TestAccountSignsIn(items, Text.Trim(Text.JavaScript, form.email), form.password);
  }

  /**
   * The account a sign-up stores is the one the sign-in fallback accepts:
   * the same password with the email typed in any case and any surrounding
   * whitespace. The sign-in page then logs in with the stored email.
   */
  lemma SignUpThenFallbackAccepts(items: map<string, Auth.Item>, form: Form, typedEmail: string)
    requires Text.Lower(Text.Trim(Text.JavaScript, typedEmail)) == Text.Lower(Text.Trim(Text.JavaScript, form.email))
    ensures SignIn.FallbackDecision(SignedUp(items, form), typedEmail, form.password)
      == SignIn.MatchedStored(Text.Trim(Text.JavaScript, form.email))
  {
    SignIn.TestAccountMatch(items, Text.Trim(Text.JavaScript, form.email), form.password, typedEmail, form.password);
  }

  /** A different password is not accepted through the stored account. */
  lemma WrongPasswordNotMatched(items: map<string, Auth.Item>, form: Form, typedEmail: string, typedPassword: string)
    requires typedPassword != form.password
    ensures SignIn.StoredMatch(SignedUp(items, form), typedEmail, typedPassword).None?
  {
    SignIn.TestAccountMatch(items, Text.Trim(Text.JavaScript, form.email), form.password, typedEmail, typedPassword);
  }
}
