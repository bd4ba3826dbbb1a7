/**
 * The client session store (src/utils/auth.js) over the browser's
 * localStorage. A stored value is either text set directly, or the JSON
 * text of an object, kept as its field map: `JSON.parse` of what
 * `JSON.stringify` wrote gives that map back.
 */
module Auth {
  import opened Basics
  import Text

  const TokenKey := "foodlog_token"
  const UserKey := "foodlog_user"
  const TestUserKey := "foodlog_test_user"

  /** The three keys name different entries. */
  lemma KeysDistinct()
    ensures TokenKey != UserKey && TokenKey != TestUserKey && UserKey != TestUserKey
  {
    assert |TokenKey| == 13 && |UserKey| == 12 && |TestUserKey| == 17;
  }

  /** A JSON field value the client writes: null or a string. */
  datatype JsonValue = JNull | JString(s: string)

  /** A localStorage value. */
  datatype Item = Plain(text: string) | JsonObject(fields: map<string, JsonValue>)

  /** Whether the stored text is non-empty; the JSON text of an object always is. */
  predicate Truthy(item: Item) {
    item != Plain("")
  }

  /** The browser's localStorage: a mutable map from keys to values. */
  class LocalStorage {
    var items: map<string, Item>

    constructor (initial: map<string, Item>)
      ensures items == initial
    {
      items := initial;
    }

    method SetItem(key: string, value: Item)
      modifies this
      ensures items == old(items)[key := value]
    {
      items := items[key := value];
    }

    method RemoveItem(key: string)
      modifies this
      ensures items == old(items) - {key}
    {
      items := items - {key};
    }
  }

  /** The user record `saveSession` writes: `{email: email || null, provider: provider || "password"}`. */
  function UserRecord(email: string, provider: string): (fields: map<string, JsonValue>)
    ensures fields.Keys == {"email", "provider"}
    ensures fields["email"] == (if email != "" then JString(email) else JNull)
    ensures fields["provider"] == JString(if provider != "" then provider else "password")
  {
    map["email" := if email != "" then JString(email) else JNull,
        "provider" := JString(if provider != "" then provider else "password")]
  }

  /** The storage after `saveSession({token, email, provider})`. */
  function SessionSaved(items: map<string, Item>, token: string, email: string, provider: string): (r: map<string, Item>)
    ensures token != "" ==> TokenKey in r && r[TokenKey] == Plain(token)
    ensures token == "" ==> (TokenKey in r <==> TokenKey in items) && (TokenKey in items ==> r[TokenKey] == items[TokenKey])
    ensures email != "" || provider != "" ==> UserKey in r && r[UserKey] == JsonObject(UserRecord(email, provider))
    ensures email == "" && provider == "" ==> (UserKey in r <==> UserKey in items) && (UserKey in items ==> r[UserKey] == items[UserKey])
    ensures forall k :: k != TokenKey && k != UserKey ==> (k in r <==> k in items) && (k in items ==> r[k] == items[k])
  {
    var withToken := if token != "" then items[TokenKey := Plain(token)] else items;
    if email != "" || provider != "" then withToken[UserKey := JsonObject(UserRecord(email, provider))] else withToken
  }

  /** The storage after `clearSession`. */
  function SessionCleared(items: map<string, Item>): (r: map<string, Item>)
    ensures TokenKey !in r && UserKey !in r && TestUserKey !in r
    ensures forall k :: k != TokenKey && k != UserKey && k != TestUserKey ==>
      (k in r <==> k in items) && (k in items ==> r[k] == items[k])
  {
    items - {TokenKey, UserKey, TestUserKey}
  }

  /** `saveSession`: the token only when non-empty, the user record only when there is an email or a provider. */
  method SaveSession(storage: LocalStorage, token: string, email: string, provider: string)
    modifies storage
    ensures storage.items == SessionSaved(old(storage.items), token, email, provider)
  {
    if token != "" {
      storage.SetItem(TokenKey, Plain(token));
    }
    if email != "" || provider != "" {
      storage.SetItem(UserKey, JsonObject(UserRecord(email, provider)));
    }
  }

  /** `clearSession`: the token, the user and the stored test user are removed. */
  method ClearSession(storage: LocalStorage)
    modifies storage
    ensures storage.items == SessionCleared(old(storage.items))
  {
    storage.RemoveItem(TokenKey);
    storage.RemoveItem(UserKey);
    storage.RemoveItem(TestUserKey);
  }

  /** `getToken`: the stored token value, None standing for null. */
  function GetToken(items: map<string, Item>): (t: Option<Item>)
    ensures t.Some? <==> TokenKey in items
    ensures t.Some? ==> t.value == items[TokenKey]
  {
    if TokenKey in items then Some(items[TokenKey]) else None
  }

  /** `isAuthenticated`: a token is stored and it is not empty. */
  predicate IsAuthenticated(items: map<string, Item>) {
    GetToken(items).Some? && Truthy(GetToken(items).value)
  }

  /**
   * `getUser`: the parsed user object; None when nothing or "" is stored, and
   * when the stored text is not the JSON of an object.
   */
  function GetUser(items: map<string, Item>): (u: Option<map<string, JsonValue>>)
    ensures UserKey !in items ==> u.None?
    ensures UserKey in items && items[UserKey].Plain? ==> u.None?
    ensures UserKey in items && items[UserKey].JsonObject? ==> u == Some(items[UserKey].fields)
  {
    if UserKey !in items then None
    else match items[UserKey]
      case Plain(_) => None
      case JsonObject(fields) => Some(fields)
  }

  /** The email field of the stored user when it is a non-empty string (`user?.email`), else "". */
  function UserEmail(user: Option<map<string, JsonValue>>): (email: string)
    ensures user.Some? && "email" in user.value && user.value["email"].JString? ==> email == user.value["email"].s
    ensures user.None? || "email" !in user.value || user.value["email"].JNull? ==> email == ""
  {
    if user.Some? && "email" in user.value && user.value["email"].JString? then user.value["email"].s else ""
  }

  /** Saving a non-empty token signs the user in, whatever was stored before. */
  lemma SavedTokenAuthenticates(items: map<string, Item>, token: string, email: string, provider: string)
    requires token != ""
    ensures IsAuthenticated(SessionSaved(items, token, email, provider))
  {
  }

  /** Saving without a token keeps the signed-in state as it was. */
  lemma SaveWithoutTokenKeepsState(items: map<string, Item>, email: string, provider: string)
    ensures IsAuthenticated(SessionSaved(items, "", email, provider)) <==> IsAuthenticated(items)
  {
    var r := SessionSaved(items, "", email, provider);
    assert GetToken(r) == GetToken(items);
  }

  /** The user record that was saved is the one read back, with its defaults. */
  lemma SavedUserReadBack(items: map<string, Item>, token: string, email: string, provider: string)
    requires email != "" || provider != ""
    ensures GetUser(SessionSaved(items, token, email, provider)) == Some(UserRecord(email, provider))
    ensures UserEmail(GetUser(SessionSaved(items, token, email, provider))) == email
  {
    var fields := UserRecord(email, provider);
    assert "email" in fields;
  }

  /** After clearing, nobody is signed in and no user is stored; other keys survive. */
  lemma ClearedSignsOut(items: map<string, Item>)
    ensures !IsAuthenticated(SessionCleared(items))
    ensures GetUser(SessionCleared(items)).None?
    ensures TestUserKey !in SessionCleared(items)
  {
  }

  /** Clearing twice is clearing once. */
  lemma ClearIdempotent(items: map<string, Item>)
    ensures SessionCleared(SessionCleared(items)) == SessionCleared(items)
  {
  }
}
