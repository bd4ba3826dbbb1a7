/**
 * The top navigation bar (src/widgets/layout/top-navbar.jsx): one pill per
 * page of the dashboard layout, with the page name capitalised word by word,
 * an active-pill rule that matches the home page exactly and every other
 * page by prefix, sign-out, and the class fallbacks for unknown themes and
 * colours.
 */
module TopNavbar {
  import opened Basics
  import Text
  import Auth

  const HomePath := "/dashboard/home"
  const SignedOutPath := "/"

  /** A page of a layout in the route table. */
  datatype Route = Route(name: string, path: string)

  /** The pages of the "dashboard" layout (src/routes.jsx). */
  const DashboardRoutes := [
    Route("food log", "/dashboard/home"),
    Route("profile", "/profile"),
    Route("calorie history", "/dashboard/tables")]

  /** An entry of `navItems`. */
  datatype NavItem = NavItem(path: string, caption: string)

  /** A character of the regular-expression class `\w`. */
  predicate IsWordChar(c: char) {
    Text.IsAsciiUpper(c) || Text.IsAsciiLower(c) || Text.IsDigit(c) || c == '_'
  }

  /**
   * Whether position `i` of `s` starts a word (`\b\w`): a word character at
   * the start, or right after a character that is not one.
   */
  predicate StartsWord(s: string, i: nat)
    requires i < |s|
  {
    IsWordChar(s[i]) && (i == 0 || !IsWordChar(s[i - 1]))
  }

  /**
   * `replace(/\b\w/g, toUpperCase)` on the rest of a string, where
   * `afterWord` says whether the character before it is a word character.
   */
  function CapitalizeAfter(afterWord: bool, s: string): (r: string)
    ensures |r| == |s|
    decreases |s|
  {
    if s == [] then []
    else
      var head := if !afterWord && IsWordChar(s[0]) then Text.UpperChar(s[0]) else s[0];
      [head] + CapitalizeAfter(IsWordChar(s[0]), s[1..])
  }

  /** Whether the character before position `i` is a word character, given what precedes `s`. */
  predicate PrecededByWord(afterWord: bool, s: string, i: nat)
    requires i < |s|
  {
    if i == 0 then afterWord else IsWordChar(s[i - 1])
  }

  /** Each character is uppercased exactly when it is a word character not preceded by one. */
  lemma {:induction false} CapitalizeAfterAt(afterWord: bool, s: string, i: nat)
    requires i < |s|
    ensures CapitalizeAfter(afterWord, s)[i] ==
      if IsWordChar(s[i]) && !PrecededByWord(afterWord, s, i) then Text.UpperChar(s[i]) else s[i]
    decreases i
  {
    if i > 0 {
      CapitalizeAfterAt(IsWordChar(s[0]), s[1..], i - 1);
      assert s[1..][i - 1] == s[i];
      if i > 1 {
        assert s[1..][i - 2] == s[i - 1];
      }
    }
  }

  /** The label of a page: every character that starts a word is uppercased, the rest kept. */
  function Capitalize(s: string): (r: string)
    ensures |r| == |s|
    ensures forall i :: 0 <= i < |s| ==> r[i] == if StartsWord(s, i) then Text.UpperChar(s[i]) else s[i]
  {
    var r := CapitalizeAfter(false, s);
    assert forall i :: 0 <= i < |s| ==> r[i] == if StartsWord(s, i) then Text.UpperChar(s[i]) else s[i] by {
      forall i | 0 <= i < |s|
        ensures r[i] == if StartsWord(s, i) then Text.UpperChar(s[i]) else s[i]
      {
        CapitalizeAfterAt(false, s, i);
        if i == 0 {
          assert StartsWord(s, i) <==> IsWordChar(s[i]);
        } else {
          assert StartsWord(s, i) <==> IsWordChar(s[i]) && !IsWordChar(s[i - 1]);
        }
      }
    }
    r
  }

  /** Uppercasing keeps a character in or out of `\w`. */
  lemma UpperKeepsWordChar(c: char)
    ensures IsWordChar(Text.UpperChar(c)) <==> IsWordChar(c)
  {
  }

  /** Capitalising a label again changes nothing: word boundaries stay where they were. */
  lemma CapitalizeIdempotent(s: string)
    ensures Capitalize(Capitalize(s)) == Capitalize(s)
  {
    var r := Capitalize(s);
    forall i | 0 <= i < |s|
      ensures IsWordChar(r[i]) <==> IsWordChar(s[i])
    {
      UpperKeepsWordChar(s[i]);
    }
    forall i | 0 <= i < |s|
      ensures Capitalize(r)[i] == r[i]
    {
      assert StartsWord(r, i) <==> StartsWord(s, i);
    }
  }

  /** Capitalising changes letter case only: lowercased, a label is its page name lowercased. */
  lemma CapitalizeChangesCaseOnly(s: string)
    ensures Text.Lower(Capitalize(s)) == Text.Lower(s)
  {
    var r := Capitalize(s);
    forall i | 0 <= i < |s|
      ensures Text.LowerChar(r[i]) == Text.LowerChar(s[i])
    {
    }
  }

  /** `navItems`: one item per page, in order, with the page's path and its capitalised name. */
  function NavItems(routes: seq<Route>): (items: seq<NavItem>)
    ensures |items| == |routes|
    ensures forall i :: 0 <= i < |routes| ==>
      items[i].path == routes[i].path && items[i].caption == Capitalize(routes[i].name)
  {
    if routes == [] then []
    else [NavItem(routes[0].path, Capitalize(routes[0].name))] + NavItems(routes[1..])
  }

  /** `isActive(path)` at `pathname`: the home page only at "/" or its own path, any other page by prefix. */
  predicate IsActive(pathname: string, path: string) {
    if path == HomePath then pathname == "/" || pathname == path
    else Text.StartsWith(pathname, path)
  }

  /** Every page's pill is active on that page's own path. */
  lemma ActiveOnOwnPath(path: string)
    ensures IsActive(path, path)
  {
  }

  /** Below the home path the home pill goes inactive, where any other pill stays active below its path. */
  lemma OnlyHomeMatchesExactly(path: string, rest: string)
    requires rest != ""
    ensures !IsActive(HomePath + rest, HomePath)
    ensures path != HomePath ==> IsActive(path + rest, path)
  {
    assert |HomePath + rest| > |HomePath|;
    assert (path + rest)[..|path|] == path;
  }

  /** The prefix match is over characters, not path segments: "/profile" is active on "/profileX". */
  lemma PrefixMatchIgnoresSegments(suffix: string)
    ensures IsActive("/profile" + suffix, "/profile")
  {
    if suffix == "" {
      assert "/profile" + suffix == "/profile";
    } else {
      assert |"/profile"| != |HomePath|;
      OnlyHomeMatchesExactly("/profile", suffix);
    }
  }

  /** At the root only the home pill of the dashboard is active (`navItems` keep the pages' paths). */
  lemma RootActivatesOnlyHome()
    ensures forall i :: 0 <= i < |DashboardRoutes| ==> (IsActive("/", DashboardRoutes[i].path) <==> i == 0)
  {
    assert DashboardRoutes[0].path == HomePath;
    assert |DashboardRoutes[1].path| > 1 && |DashboardRoutes[2].path| > 1;
    assert DashboardRoutes[1].path != HomePath && DashboardRoutes[2].path != HomePath;
  }

  const DarkTheme := "bg-blue-gray-900 text-white shadow-xl"
  const TransparentTheme := "bg-white/70 backdrop-blur-md text-blue-gray-800 shadow-sm"
  const WhiteTheme := "bg-white text-blue-gray-800 shadow-md"

  /** `navbarThemeClasses`: "dark" and "transparent" have their own classes, anything else is white. */
  function ThemeClasses(sidenavType: string): (c: string)
    ensures sidenavType == "dark" ==> c == DarkTheme
    ensures sidenavType == "transparent" ==> c == TransparentTheme
    ensures sidenavType != "dark" && sidenavType != "transparent" ==> c == WhiteTheme
  {
    if sidenavType == "dark" then DarkTheme
    else if sidenavType == "transparent" then TransparentTheme
    else WhiteTheme
  }

  /** An unknown sidebar type looks like the white one. */
  lemma UnknownThemeIsWhite(sidenavType: string)
    requires sidenavType != "dark" && sidenavType != "transparent"
    ensures ThemeClasses(sidenavType) == ThemeClasses("white")
  {
  }

  const DarkPill := "bg-blue-gray-900 text-white"

  /** `colorMap`: the pill classes of each known sidebar colour. */
  const PillColors: map<string, string> := map[
    "dark" := DarkPill,
    "white" := "bg-blue-600 text-white",
    "green" := "bg-emerald-500 text-white",
    "orange" := "bg-orange-500 text-white",
    "red" := "bg-rose-500 text-white",
    "pink" := "bg-pink-500 text-white"]

  /** `activePillClasses`: the colour's classes, or the dark pill for an unknown colour. */
  function PillClasses(color: string): (c: string)
    ensures color in PillColors ==> c == PillColors[color]
    ensures color !in PillColors ==> c == DarkPill
  {
    if color in PillColors && PillColors[color] != "" then PillColors[color] else DarkPill
  }

  /** An unknown colour looks like the dark one. */
  lemma UnknownColorIsDark(color: string)
    requires color !in PillColors
    ensures PillClasses(color) == PillClasses("dark")
  {
  }

  const InactivePill := "text-blue-gray-600 hover:bg-blue-gray-50"

  /** The classes of one pill: the colour's classes with a shadow when active, the muted ones otherwise. */
  function ItemClasses(pathname: string, item: NavItem, color: string): (c: string)
    ensures IsActive(pathname, item.path) ==> c == PillClasses(color) + " shadow"
    ensures !IsActive(pathname, item.path) ==> c == InactivePill
  {
    if IsActive(pathname, item.path) then PillClasses(color) + " shadow" else InactivePill
  }

  /** The email shown on small screens: the stored user's email, or nothing. */
  function ShownEmail(user: Option<map<string, Auth.JsonValue>>): (e: Option<string>)
    ensures e.Some? <==> Auth.UserEmail(user) != ""
    ensures e.Some? ==> e.value == Auth.UserEmail(user)
  {
    var email := Auth.UserEmail(user);
    if email != "" then Some(email) else None
  }

  /** The bar's effect on the page: the navigations it made. */
  class TopNavbarView {
    var navigations: seq<string>

    constructor ()
      ensures navigations == []
    {
      navigations := [];
    }

    /** `handleSignOut`: the session is cleared, then the app goes to "/". */
    method SignOut(storage: Auth.LocalStorage)
      modifies this, storage
      ensures storage.items == Auth.SessionCleared(old(storage.items))
      ensures !Auth.IsAuthenticated(storage.items)
      ensures navigations == old(navigations) + [SignedOutPath]
    {
      Auth.ClearSession(storage);
      Auth.ClearedSignsOut(old(storage.items));
      navigations := navigations + [SignedOutPath];
    }
  }
}
