/**
 * The profile page (src/pages/Profile.jsx): a fallback profile, the stored
 * user's email laid over it, then the server's profile merged field by
 * field with the fallback, and the four detail cards. Ages and weights are
 * whole numbers; 0 stands for a missing or falsy number.
 */
module Profile {
  import opened Basics
  import Text
  import Api
  import Auth

  const DefaultProfileError := "Unable to load profile from the server. Showing saved details."
  const LoadingText := "Loading..."

  datatype Profile = Profile(name: string, email: string, age: int, weight: int, goal: string)

  /** `fallbackProfile`. */
  const FallbackProfile := Profile("Salar Momeni", "momeni.salar@gmail.com", 25, 72, "Maintain healthy weight")

  /** A `/profile` response body; "" and 0 where a key is missing or falsy. */
  datatype ProfileData = ProfileData(name: string, email: string, age: int, weight: int, goal: string)

  /** The first effect: a stored user with an email replaces the shown email, and nothing else. */
  function WithStoredEmail(profile: Profile, storedUser: Option<map<string, Auth.JsonValue>>): (r: Profile)
    ensures Auth.UserEmail(storedUser) != "" ==> r == profile.(email := Auth.UserEmail(storedUser))
    ensures Auth.UserEmail(storedUser) == "" ==> r == profile
  {
    var email := Auth.UserEmail(storedUser);
    if email != "" then profile.(email := email) else profile
  }

  /** The profile set from a server body: each field from the body, or the fallback's when falsy. */
  function MergeProfile(data: ProfileData): (p: Profile)
    ensures p.name == (if data.name != "" then data.name else FallbackProfile.name)
    ensures p.email == (if data.email != "" then data.email else FallbackProfile.email)
    ensures p.age == (if data.age != 0 then data.age else FallbackProfile.age)
    ensures p.weight == (if data.weight != 0 then data.weight else FallbackProfile.weight)
    ensures p.goal == (if data.goal != "" then data.goal else FallbackProfile.goal)
  {
    Profile(
      if data.name != "" then data.name else FallbackProfile.name,
      if data.email != "" then data.email else FallbackProfile.email,
      if data.age != 0 then data.age else FallbackProfile.age,
      if data.weight != 0 then data.weight else FallbackProfile.weight,
      if data.goal != "" then data.goal else FallbackProfile.goal)
  }

  /** A profile seen as a server body. */
  function AsData(p: Profile): ProfileData {
    ProfileData(p.name, p.email, p.age, p.weight, p.goal)
  }

  /** A body with every field present is shown as it is. */
  lemma CompleteBodyShownAsIs(data: ProfileData)
    requires data.name != "" && data.email != "" && data.age != 0 && data.weight != 0 && data.goal != ""
    ensures AsData(MergeProfile(data)) == data
  {
  }

  /** Merging is idempotent: a merged profile merges to itself, as no field of it is falsy. */
  lemma MergeIdempotent(data: ProfileData)
    ensures MergeProfile(AsData(MergeProfile(data))) == MergeProfile(data)
  {
  }

  /**
   * A body without an email falls back to the fallback profile's email, not
   * to the stored user's email laid over it by the first effect.
   */
  lemma MissingEmailDropsStoredEmail(storedUser: Option<map<string, Auth.JsonValue>>, data: ProfileData)
    requires data.email == ""
    ensures MergeProfile(data).email == FallbackProfile.email
    ensures Auth.UserEmail(storedUser) != "" ==> WithStoredEmail(FallbackProfile, storedUser).email == Auth.UserEmail(storedUser)
  {
  }

  /** The server's own payload is the fallback profile. */
  lemma ServerPayloadIsFallback()
    ensures MergeProfile(AsData(FallbackProfile)) == FallbackProfile
  {
  }

  /** `err?.data?.message || err?.message || default`. */
  function ProfileError(e: Api.ClientError): (m: string)
    ensures m != ""
    ensures e.data.Some? && e.data.value.message != "" ==> m == e.data.value.message
    ensures (e.data.None? || e.data.value.message == "") && e.message != "" ==> m == e.message
    ensures (e.data.None? || e.data.value.message == "") && e.message == "" ==> m == DefaultProfileError
  {
    if e.data.Some? && e.data.value.message != "" then e.data.value.message
    else if e.message != "" then e.message
    else DefaultProfileError
  }

  /** One card of `userDetails`. */
  datatype Detail = Detail(caption: string, value: string)

  /** `userDetails`: email, age, weight with its unit, and goal. */
  function UserDetails(p: Profile): (d: seq<Detail>)
    ensures |d| == 4
    ensures d[0] == Detail("Email", p.email) && d[3] == Detail("Goal", p.goal)
    ensures d[1] == Detail("Age", Text.IntToString(p.age))
    ensures d[2] == Detail("Weight", Text.IntToString(p.weight) + " kg")
  {
    [Detail("Email", p.email), Detail("Age", Text.IntToString(p.age)),
     Detail("Weight", Text.IntToString(p.weight) + " kg"), Detail("Goal", p.goal)]
  }

  /** What a card shows: every card but the email one reads "Loading..." while loading. */
  function Shown(d: Detail, loading: bool): (s: string)
    ensures loading && d.caption != "Email" ==> s == LoadingText
    ensures !loading || d.caption == "Email" ==> s == d.value
  {
    if loading && d.caption != "Email" then LoadingText else d.value
  }

  /** While loading only the email is visible; once loaded every card shows its value. */
  lemma LoadingHidesAllButEmail(p: Profile)
    ensures Shown(UserDetails(p)[0], true) == p.email
    ensures forall i :: 1 <= i < 4 ==> Shown(UserDetails(p)[i], true) == LoadingText
    ensures forall i :: 0 <= i < 4 ==> Shown(UserDetails(p)[i], false) == UserDetails(p)[i].value
  {
    var d := UserDetails(p);
    assert d[1].caption == "Age" && d[2].caption == "Weight" && d[3].caption == "Goal";
    assert "Age" != "Email" && "Weight" != "Email" && "Goal" != "Email";
  }

  /** The age card shows the age in decimal, so two different ages never render alike. */
  lemma AgeCardDistinguishesAges(a: Profile, b: Profile)
    requires a.age >= 0 && b.age >= 0 && a.age != b.age
    ensures UserDetails(a)[1] != UserDetails(b)[1]
  {
    if Text.IntToString(a.age) == Text.IntToString(b.age) {
      Text.NatToStringInjective(a.age, b.age);
    }
  }

  class ProfilePage {
    var profile: Profile
    var loading: bool
    var error: string
    /** False once the page has unmounted; later results are dropped. */
    var mounted: bool

    constructor ()
      ensures profile == FallbackProfile && loading && error == "" && mounted
    {
      profile := FallbackProfile;
      loading := true;
      error := "";
      mounted := true;
    }

    /** The first effect, with `getUser()`'s result. */
    method ApplyStoredUser(storedUser: Option<map<string, Auth.JsonValue>>)
      modifies this
      ensures profile == WithStoredEmail(old(profile), storedUser)
      ensures loading == old(loading) && error == old(error) && mounted == old(mounted)
    {
      var email := Auth.UserEmail(storedUser);
      if email != "" {
        profile := profile.(email := email);
      }
    }

    /**
     * The settled `getProfile()`. Once unmounted nothing changes. Otherwise a
     * truthy body replaces the profile with the merge, a falsy one keeps it,
     * a failure sets the message, and loading ends.
     */
    method CompleteFetch(fetch: Api.Call<Option<ProfileData>>)
      modifies this
      ensures !old(mounted) ==> unchanged(this)
      ensures old(mounted) ==> !loading && mounted
      ensures old(mounted) && fetch.Succeeded? && fetch.value.Some? ==>
        profile == MergeProfile(fetch.value.value) && error == old(error)
      ensures old(mounted) && fetch.Succeeded? && fetch.value.None? ==>
        profile == old(profile) && error == old(error)
      ensures old(mounted) && fetch.Failed? ==>
        profile == old(profile) && error == ProfileError(Api.NormalizeError(fetch.error))
    {
      if !mounted {
        return;
      }
      match fetch {
        case Succeeded(body) =>
          if body.Some? {
            profile := MergeProfile(body.value);
          }
        case Failed(e) =>
          error := ProfileError(Api.NormalizeError(e));
      }
      loading := false;
    }

    /** The effect's cleanup. */
    method Unmount()
      modifies this
      ensures !mounted && profile == old(profile) && loading == old(loading) && error == old(error)
    {
      mounted := false;
    }
  }
}
