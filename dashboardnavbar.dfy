/**
 * The dashboard's own navigation bar (src/widgets/layout/dashboard-navbar.jsx):
 * the layout and page read from the pathname's non-empty "/" segments, the
 * heading, the signed-in email, the sign-in provider's label and sign-out.
 */
module DashboardNavbar {
  import opened Basics
  import Auth
  import AuthLanding
  import SignIn

  const Overview := "overview"
  const WelcomeBack := "Welcome back"
  const SignedOutPath := "/"

  predicate NoSlash(s: string) {
    forall i :: 0 <= i < |s| ==> s[i] != '/'
  }

  /** `split("/")`: the pieces between slashes, empty ones included; there is always one more piece than slashes. */
  function Split(s: string): (pieces: seq<string>)
    ensures |pieces| >= 1
    ensures forall k :: 0 <= k < |pieces| ==> NoSlash(pieces[k])
  {
    if s == [] then [""]
    else if s[0] == '/' then [""] + Split(s[1..])
    else
      var rest := Split(s[1..]);
      [[s[0]] + rest[0]] + rest[1..]
  }

  /** `join("/")`, the inverse of `Split`. */
  function Join(pieces: seq<string>): string
    requires |pieces| >= 1
  {
    if |pieces| == 1 then pieces[0] else pieces[0] + "/" + Join(pieces[1..])
  }

  /** Splitting loses nothing: joining the pieces with "/" gives the pathname back. */
  lemma {:induction false} JoinSplit(s: string)
    ensures Join(Split(s)) == s
  {
    if s != [] {
      JoinSplit(s[1..]);
      var rest := Split(s[1..]);
      if s[0] == '/' {
        assert Split(s)[1..] == rest;
        assert s == "/" + s[1..];
      } else {
        var pieces := Split(s);
        assert pieces[1..] == rest[1..];
        if |rest| == 1 {
          assert s == [s[0]] + s[1..];
        } else {
          assert Join(rest) == rest[0] + "/" + Join(rest[1..]);
          assert s == [s[0]] + s[1..];
        }
      }
    }
  }

  /** A string without slashes is one piece. */
  lemma {:induction false} SplitNoSlash(s: string)
    requires NoSlash(s)
    ensures Split(s) == [s]
  {
    if s != [] {
      assert NoSlash(s[1..]) by {
        assert forall i :: 0 <= i < |s[1..]| ==> s[1..][i] == s[i + 1];
      }
      SplitNoSlash(s[1..]);
      assert [s[0]] + s[1..] == s;
    }
  }

  /** A slash separates: the pieces of `a/b` are the pieces of `a` followed by those of `b`. */
  lemma {:induction false} SplitAtSlash(a: string, b: string)
    ensures Split(a + "/" + b) == Split(a) + Split(b)
  {
    if a == [] {
      assert a + "/" + b == "/" + b;
      assert ("/" + b)[1..] == b;
    } else {
      var s := a + "/" + b;
      assert s[0] == a[0];
      assert s[1..] == a[1..] + "/" + b;
      SplitAtSlash(a[1..], b);
    }
  }

  /** `filter((el) => el !== "")`. */
  function NonEmpty(pieces: seq<string>): (kept: seq<string>)
    ensures |kept| <= |pieces|
    ensures forall k :: 0 <= k < |kept| ==> kept[k] != "" && kept[k] in pieces
  {
    if pieces == [] then []
    else if pieces[0] == "" then NonEmpty(pieces[1..])
    else [pieces[0]] + NonEmpty(pieces[1..])
  }

  lemma {:induction false} NonEmptyConcat(x: seq<string>, y: seq<string>)
    ensures NonEmpty(x + y) == NonEmpty(x) + NonEmpty(y)
  {
    if x == [] {
      assert x + y == y;
    } else {
      assert (x + y)[1..] == x[1..] + y;
      NonEmptyConcat(x[1..], y);
    }
  }

  /** The non-empty segments of a pathname. */
  function Segments(pathname: string): (segs: seq<string>)
    ensures forall k :: 0 <= k < |segs| ==> segs[k] != "" && NoSlash(segs[k])
  {
    NonEmpty(Split(pathname))
  }

  /** Segments of `a/b` are those of `a` followed by those of `b`, however many slashes stand between. */
  lemma SegmentsAtSlash(a: string, b: string)
    ensures Segments(a + "/" + b) == Segments(a) + Segments(b)
  {
    SplitAtSlash(a, b);
    NonEmptyConcat(Split(a), Split(b));
  }

  /** Leading, trailing and repeated slashes are ignored. */
  lemma SlashesIgnored(a: string, b: string)
    ensures Segments("/" + a) == Segments(a)
    ensures Segments(a + "/") == Segments(a)
    ensures Segments(a + "//" + b) == Segments(a + "/" + b)
  {
    SegmentsAtSlash("", a);
    assert "" + "/" + a == "/" + a;
    SegmentsAtSlash(a, "");
    assert a + "/" + "" == a + "/";
    SegmentsAtSlash(a, "/" + b);
    assert a + "/" + ("/" + b) == a + "//" + b;
    SegmentsAtSlash("", b);
    assert "" + "/" + b == "/" + b;
    SegmentsAtSlash(a, b);
  }

  /** A pathname `/layout/page` has exactly those two segments. */
  lemma TwoSegments(layout: string, page: string)
    requires layout != "" && page != "" && NoSlash(layout) && NoSlash(page)
    ensures Segments("/" + layout + "/" + page) == [layout, page]
  {
    SegmentsAtSlash("", layout + "/" + page);
    assert "" + "/" + (layout + "/" + page) == "/" + layout + "/" + page;
    SegmentsAtSlash(layout, page);
    SplitNoSlash(layout);
    SplitNoSlash(page);
    assert Segments("") == [];
    assert Segments(layout) == [layout];
    assert Segments(page) == [page];
  }

  /** `[layout, page]`: the first two segments, "" standing for undefined. */
  function Layout(pathname: string): (layout: string)
    ensures layout == "" <==> Segments(pathname) == []
    ensures layout != "" ==> layout == Segments(pathname)[0]
  {
    var segs := Segments(pathname);
    if |segs| >= 1 then segs[0] else ""
  }

  function Page(pathname: string): (page: string)
    ensures page == "" <==> |Segments(pathname)| < 2
    ensures page != "" ==> page == Segments(pathname)[1]
  {
    var segs := Segments(pathname);
    if |segs| >= 2 then segs[1] else ""
  }

  /** The heading: the page, or "overview" when the pathname has fewer than two segments. */
  function Heading(pathname: string): (h: string)
    ensures |Segments(pathname)| >= 2 ==> h == Segments(pathname)[1]
    ensures |Segments(pathname)| < 2 ==> h == Overview
  {
    var page := Page(pathname);
    if page != "" then page else Overview
  }

  /** On `/layout/page` the heading is the page, whatever slashes are doubled or trailing. */
  lemma HeadingIsPage(layout: string, page: string)
    requires layout != "" && page != "" && NoSlash(layout) && NoSlash(page)
    ensures Heading("/" + layout + "/" + page) == page
    ensures Heading("/" + layout + "/" + page + "/") == page
  {
    TwoSegments(layout, page);
    SlashesIgnored("/" + layout + "/" + page, "");
  }

  /** On a one-segment pathname such as "/profile" the heading is "overview". */
  lemma OneSegmentIsOverview(layout: string)
    requires NoSlash(layout)
    ensures Heading("/" + layout) == Overview
  {
    SlashesIgnored(layout, "");
    SplitNoSlash(layout);
  }

  /** The shown email: the stored user's email, or "Welcome back". */
  function DisplayedEmail(user: Option<map<string, Auth.JsonValue>>): (shown: string)
    ensures Auth.UserEmail(user) != "" ==> shown == Auth.UserEmail(user)
    ensures Auth.UserEmail(user) == "" ==> shown == WelcomeBack
  {
    var email := Auth.UserEmail(user);
    if email != "" then email else WelcomeBack
  }

  /** `user?.provider` when it is a string, else "". */
  function UserProvider(user: Option<map<string, Auth.JsonValue>>): (provider: string)
    ensures user.Some? && "provider" in user.value && user.value["provider"].JString? ==>
      provider == user.value["provider"].s
    ensures user.None? || "provider" !in user.value || user.value["provider"].JNull? ==> provider == ""
  {
    if user.Some? && "provider" in user.value && user.value["provider"].JString? then user.value["provider"].s else ""
  }

  const GoogleLabel := "Google sign-in"
  const AppleLabel := "Apple sign-in"
  const EmailLabel := "Email session"

  /** The provider label: Google's and Apple's own, "Email session" for any other or no provider. */
  function ProviderLabel(user: Option<map<string, Auth.JsonValue>>): (caption: string)
    ensures UserProvider(user) == "google" ==> caption == GoogleLabel
    ensures UserProvider(user) == "apple" ==> caption == AppleLabel
    ensures UserProvider(user) != "google" && UserProvider(user) != "apple" ==> caption == EmailLabel
  {
    var provider := UserProvider(user);
    if provider == "google" then GoogleLabel
    else if provider == "apple" then AppleLabel
    else EmailLabel
  }

  /** After an OAuth button, the bar shows the provider's email and its label. */
  lemma OAuthSessionShown(items: map<string, Auth.Item>, key: string)
    requires AuthLanding.OAuthProvider(key).Some?
    ensures var p := AuthLanding.OAuthProvider(key).value;
      var user := Auth.GetUser(Auth.SessionSaved(items, p.token, p.email, key));
      && DisplayedEmail(user) == p.email
      && ProviderLabel(user) == (if key == "google" then GoogleLabel else AppleLabel)
  {
    var p := AuthLanding.OAuthProvider(key).value;
    Auth.SavedUserReadBack(items, p.token, p.email, key);
  }

  /** After a password login on the landing page, the bar shows an email session. */
  lemma PasswordSessionShown(items: map<string, Auth.Item>, token: string, email: string)
    ensures ProviderLabel(Auth.GetUser(Auth.SessionSaved(items, token, email, AuthLanding.PasswordProvider))) == EmailLabel
  {
    Auth.SavedUserReadBack(items, token, email, AuthLanding.PasswordProvider);
  }

  /** After the sign-in page's login, whose user record has no provider, the bar shows an email session. */
  lemma SignInSessionShown(items: map<string, Auth.Item>, token: string, email: string, formEmail: string)
    ensures ProviderLabel(Auth.GetUser(SignIn.LoggedIn(items, token, email, formEmail))) == EmailLabel
  {
    SignIn.LoggedInSignsIn(items, token, email, formEmail);
  }

  /** The bar's effect on the page: the navigations it made. */
  class DashboardNavbarView {
    var navigations: seq<string>

    constructor ()
      ensures navigations == []
    {
      navigations := [];
    }

    /** `handleSignOut`: the session is cleared, then the app goes to "/". */
    method SignOut(storage: Auth.LocalStorage)
      modifies this, storage
      ensures storage.items == Auth.SessionCleared(old(storage.items))
      ensures DisplayedEmail(Auth.GetUser(storage.items)) == WelcomeBack
      ensures navigations == old(navigations) + [SignedOutPath]
    {
      Auth.ClearSession(storage);
      Auth.ClearedSignsOut(old(storage.items));
      navigations := navigations + [SignedOutPath];
    }
  }
}
