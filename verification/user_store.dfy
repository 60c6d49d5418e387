/** The user profile store (store/user-store.ts): one nullable profile, replaced field-wise by
    the update actions and cleared by `logout`. */
module Users {
  import opened Common
  import opened Types

  /** `defaultGoals` */
  const DefaultGoals: NutritionGoals := NutritionGoals(2000.0, 150.0, 200.0, 65.0)

  /** `defaultUser`: every optional property other than the (empty) picture is absent. */
  const DefaultUser: UserProfile := UserProfile(
    "1", "User", "user@example.com", Some(""), None, None, None, None, None,
    DefaultGoals, false, None, Light)

  /** The argument of `updateProfile`: the properties of a profile that are supplied. */
  datatype ProfilePatch = ProfilePatch(
    id: Option<string>,
    name: Option<string>,
    email: Option<string>,
    profilePicture: Option<string>,
    weight: Option<real>,
    height: Option<real>,
    age: Option<int>,
    gender: Option<Gender>,
    activityLevel: Option<ActivityLevel>,
    goals: Option<NutritionGoals>,
    isPremium: Option<bool>,
    premiumUntil: Option<string>,
    theme: Option<ThemeMode>)

  /** A patch that supplies nothing. */
  const EmptyProfilePatch: ProfilePatch :=
    ProfilePatch(None, None, None, None, None, None, None, None, None, None, None, None, None)

  /** `Some(x)` when the patch supplies `x`, otherwise the current value. */
  function Pick<T>(supplied: Option<T>, current: T): T {
    if supplied.Some? then supplied.value else current
  }

  /** `Some(x)` when the patch supplies `x`, otherwise the current optional value. */
  function PickOption<T>(supplied: Option<T>, current: Option<T>): Option<T> {
    if supplied.Some? then supplied else current
  }

  /** `{ ...user, ...profile }` */
  function ApplyProfilePatch(u: UserProfile, p: ProfilePatch): UserProfile {
    UserProfile(
      Pick(p.id, u.id), Pick(p.name, u.name), Pick(p.email, u.email),
      PickOption(p.profilePicture, u.profilePicture),
      PickOption(p.weight, u.weight), PickOption(p.height, u.height), PickOption(p.age, u.age),
      PickOption(p.gender, u.gender), PickOption(p.activityLevel, u.activityLevel),
      Pick(p.goals, u.goals), Pick(p.isPremium, u.isPremium),
      PickOption(p.premiumUntil, u.premiumUntil), Pick(p.theme, u.theme))
  }

  /** Merging an empty patch changes nothing, merging twice is merging once, and a patch that
      supplies only the goals is `updateGoals`. */
  lemma ProfilePatchLaws(u: UserProfile, p: ProfilePatch, goals: NutritionGoals)
    ensures ApplyProfilePatch(u, EmptyProfilePatch) == u
    ensures ApplyProfilePatch(ApplyProfilePatch(u, p), p) == ApplyProfilePatch(u, p)
    ensures ApplyProfilePatch(u, EmptyProfilePatch.(goals := Some(goals))) == u.(goals := goals)
  {
  }

  /** A supplied property wins; an unsupplied one keeps the profile's value. */
  lemma ProfilePatchFields(u: UserProfile, p: ProfilePatch)
    ensures var r := ApplyProfilePatch(u, p);
      && (p.id.Some? ==> r.id == p.id.value) && (p.id.None? ==> r.id == u.id)
      && (p.name.Some? ==> r.name == p.name.value) && (p.name.None? ==> r.name == u.name)
      && (p.email.Some? ==> r.email == p.email.value) && (p.email.None? ==> r.email == u.email)
      && (p.profilePicture.Some? ==> r.profilePicture == p.profilePicture)
      && (p.profilePicture.None? ==> r.profilePicture == u.profilePicture)
      && (p.weight.Some? ==> r.weight == p.weight) && (p.weight.None? ==> r.weight == u.weight)
      && (p.height.Some? ==> r.height == p.height) && (p.height.None? ==> r.height == u.height)
      && (p.age.Some? ==> r.age == p.age) && (p.age.None? ==> r.age == u.age)
      && (p.gender.Some? ==> r.gender == p.gender) && (p.gender.None? ==> r.gender == u.gender)
      && (p.activityLevel.Some? ==> r.activityLevel == p.activityLevel)
      && (p.activityLevel.None? ==> r.activityLevel == u.activityLevel)
      && (p.goals.Some? ==> r.goals == p.goals.value) && (p.goals.None? ==> r.goals == u.goals)
      && (p.isPremium.Some? ==> r.isPremium == p.isPremium.value) && (p.isPremium.None? ==> r.isPremium == u.isPremium)
      && (p.premiumUntil.Some? ==> r.premiumUntil == p.premiumUntil)
      && (p.premiumUntil.None? ==> r.premiumUntil == u.premiumUntil)
      && (p.theme.Some? ==> r.theme == p.theme.value) && (p.theme.None? ==> r.theme == u.theme)
  {
  }

  class UserStore {
    var user: Option<UserProfile>

    /** The initial state: the default profile. */
    constructor ()
      ensures user == Some(DefaultUser)
      ensures user.value.goals == NutritionGoals(2000.0, 150.0, 200.0, 65.0) && !user.value.isPremium
    {
      user := Some(DefaultUser);
    }

    /** `setUser(user)`: the profile is replaced, also after a logout. */
    method SetUser(u: UserProfile)
      modifies this
      ensures user == Some(u)
    {
      user := Some(u);
    }

    /** `updateGoals(goals)`: a present profile gets the goals; an absent one stays absent. */
    method UpdateGoals(goals: NutritionGoals)
      modifies this
      ensures old(user).None? ==> user.None?
      ensures old(user).Some? ==> user == Some(old(user).value.(goals := goals))
    {
      if user.Some? {
        user := Some(user.value.(goals := goals));
      }
    }

    /** `updateProfile(profile)`: the supplied properties overwrite those of a present profile. */
    method UpdateProfile(patch: ProfilePatch)
      modifies this
      ensures old(user).None? ==> user.None?
      ensures old(user).Some? ==> user == Some(ApplyProfilePatch(old(user).value, patch))
    {
      if user.Some? {
        user := Some(ApplyProfilePatch(user.value, patch));
      }
    }

    /** `setPremiumStatus(isPremium, premiumUntil)`: both properties are overwritten, so an
        omitted `premiumUntil` clears the stored one. */
    method SetPremiumStatus(isPremium: bool, premiumUntil: Option<string>)
      modifies this
      ensures old(user).None? ==> user.None?
      ensures old(user).Some? ==>
        user == Some(old(user).value.(isPremium := isPremium, premiumUntil := premiumUntil))
    {
      if user.Some? {
        user := Some(user.value.(isPremium := isPremium, premiumUntil := premiumUntil));
      }
    }

    /** `logout()`: the profile is gone; the three update actions then do nothing until
        `setUser`. */
    method Logout()
      modifies this
      ensures user.None?
    {
      user := None;
    }
  }
}
