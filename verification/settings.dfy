/**
 * The settings page (`src/pages/Settings.tsx`): the profile form's schema,
 * the defaults both forms start from, what submitting them announces, the
 * guard that sends a guest home, and the logout button.
 *
 * The schema's e-mail rule is the validation library's own pattern and is
 * a parameter here.
 */
module Settings {
  import opened Wrappers
  import opened Http
  import opened Text
  import Session

  const MinUsernameLength := 3
  const MaxBioLength := 160
  const UsernameTooShortText := "Username must be at least 3 characters."
  const InvalidEmailText := "Please enter a valid email address."
  const BioTooLongText := "Bio must not be longer than 160 characters."
  const LoginRequiredText := "You need to be logged in to access settings"
  const ProfileSavedText := "Profile updated successfully"
  const PreferencesSavedText := "Notification preferences updated"

  /** The profile form's values. The avatar and cover image accept anything and are left out. */
  datatype Profile = Profile(username: string, email: string, bio: Option<string>)

  datatype ProfileField = Username | Email | Bio

  /** The six notification switches. */
  datatype Preferences = Preferences(
    emailNotifications: bool,
    pushNotifications: bool,
    newSubscriber: bool,
    newComment: bool,
    videoLiked: bool,
    mentionedYou: bool)

  /**
   * The profile form's defaults: the user's name and e-mail, or empty
   * strings without a user, and an empty bio.
   */
  function ProfileDefaults(user: Option<Session.User>): (p: Profile)
    ensures user.Some? ==> p.username == user.value.userName && p.email == user.value.email
    ensures user.None? ==> p.username == "" && p.email == ""
    ensures p.bio == Some("")
  {
    if user.Some? then Profile(user.value.userName, user.value.email, Some(""))
    else Profile("", "", Some(""))
  }

  /** Every notification starts switched on. */
  function PreferenceDefaults(): (p: Preferences)
    ensures p.emailNotifications && p.pushNotifications && p.newSubscriber
    ensures p.newComment && p.videoLiked && p.mentionedYou
  {
    Preferences(true, true, true, true, true, true)
  }

  /**
   * The schema's verdict on a profile, one message per failing field:
   * the name must be at least 3 UTF-16 units long, the e-mail must pass
   * the e-mail check, and a bio, when there is one, at most 160 units.
   */
  function ProfileErrors(p: Profile, isEmail: string -> bool): (r: map<ProfileField, string>)
    ensures Username in r <==> Utf16Length(p.username) < MinUsernameLength
    ensures Email in r <==> !isEmail(p.email)
    ensures Bio in r <==> p.bio.Some? && Utf16Length(p.bio.value) > MaxBioLength
    ensures Username in r ==> r[Username] == UsernameTooShortText
    ensures Email in r ==> r[Email] == InvalidEmailText
    ensures Bio in r ==> r[Bio] == BioTooLongText
  {
    var name := if Utf16Length(p.username) < MinUsernameLength then map[Username := UsernameTooShortText] else map[];
    var email := if !isEmail(p.email) then map[Email := InvalidEmailText] else map[];
    var bio := if p.bio.Some? && Utf16Length(p.bio.value) > MaxBioLength then map[Bio := BioTooLongText] else map[];
    name + email + bio
  }

  /** A profile passes exactly when each of its fields does. */
  lemma ProfileValidIff(p: Profile, isEmail: string -> bool)
    ensures ProfileErrors(p, isEmail) == map[] <==>
      Utf16Length(p.username) >= MinUsernameLength && isEmail(p.email) &&
      (p.bio.None? || Utf16Length(p.bio.value) <= MaxBioLength)
  {
    var r := ProfileErrors(p, isEmail);
    if r != map[] {
      var f :| f in r;
    }
  }

  /** The bio may be left out, and the default empty bio always passes. */
  lemma BioOptional(p: Profile, user: Option<Session.User>, isEmail: string -> bool)
    ensures Bio !in ProfileErrors(p.(bio := None), isEmail)
    ensures Bio !in ProfileErrors(ProfileDefaults(user), isEmail)
  {
  }

  /** Submitting the profile: a notice when the schema accepts it, nothing otherwise. */
  function SubmitProfile(p: Profile, isEmail: string -> bool): (r: seq<Effect>)
    ensures ProfileErrors(p, isEmail) == map[] ==> r == [ToastSuccess(ProfileSavedText)]
    ensures ProfileErrors(p, isEmail) != map[] ==> r == []
  {
    if ProfileErrors(p, isEmail) == map[] then [ToastSuccess(ProfileSavedText)] else []
  }

  /** Submitting the preferences. */
  function SubmitPreferences(p: Preferences): seq<Effect> {
    [ToastSuccess(PreferencesSavedText)]
  }

  /** Every combination of switches is accepted with the same notice. */
  lemma PreferencesAlwaysAccepted(p: Preferences, q: Preferences)
    ensures SubmitPreferences(p) == SubmitPreferences(q) == [ToastSuccess(PreferencesSavedText)]
  {
  }

  /** The page's guard: a guest is sent home with a notice. */
  function Guard(isAuthenticated: bool): (r: seq<Effect>)
    ensures isAuthenticated ==> r == []
    ensures !isAuthenticated ==> r == [Navigate("/"), ToastError(LoginRequiredText)]
  {
    if isAuthenticated then [] else [Navigate("/"), ToastError(LoginRequiredText)]
  }

  /** The logout button: the session's logout, then a navigation home. */
  function HandleLogout(s: Session.Session): (r: Session.Outcome)
    ensures r.session == Session.Logout(s).session
    ensures r.calls == [] && r.raised.None?
    ensures r.effects == Session.Logout(s).effects + [Navigate("/")]
  {
    var o := Session.Logout(s);
    o.(effects := o.effects + [Navigate("/")])
  }

  /**
   * After the logout button the viewer is signed out, nothing is stored,
   * the page has moved home and nothing reloads it.
   */
  lemma LogoutLeavesSignedOut(s: Session.Session)
    ensures !Session.Value(HandleLogout(s).session).isAuthenticated
    ensures HandleLogout(s).session.storedToken.None?
    ensures HandleLogout(s).effects[|HandleLogout(s).effects| - 1] == Navigate("/")
    ensures !Session.Reloads(HandleLogout(s).effects)
  {
    var e := HandleLogout(s).effects;
    assert e == [ToastSuccess(Session.LogoutText), Navigate("/")];
  }
}
