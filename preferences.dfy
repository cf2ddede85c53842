/**
 * `PreferenceManager`: the app's shared-preferences file with three keys,
 * the user's name, e-mail and login flag. A missing key reads as its
 * default: "" for the two texts, `false` for the flag.
 */
module Preferences {
  /** A stored preference value: the file holds texts and booleans. */
  datatype PrefValue = Text(s: string) | Flag(b: bool)

  const UserNameKey: string := "user_name"
  const UserEmailKey: string := "user_email"
  const LoggedInKey: string := "is_logged_in"

  /** `getString(key, default)`. */
  function StringOr(prefs: map<string, PrefValue>, key: string, default: string): string {
    if key in prefs && prefs[key].Text? then prefs[key].s else default
  }

  /** `getBoolean(key, default)`. */
  function BoolOr(prefs: map<string, PrefValue>, key: string, default: bool): bool {
    if key in prefs && prefs[key].Flag? then prefs[key].b else default
  }

  /** A key reads back what was last put under it; putting one key leaves every other key's reading alone. */
  lemma ReadBack(prefs: map<string, PrefValue>, key: string, v: PrefValue, other: string, dt: string, db: bool)
    requires other != key
    ensures v.Text? ==> StringOr(prefs[key := v], key, dt) == v.s
    ensures v.Flag? ==> BoolOr(prefs[key := v], key, db) == v.b
    ensures StringOr(prefs[key := v], other, dt) == StringOr(prefs, other, dt)
    ensures BoolOr(prefs[key := v], other, db) == BoolOr(prefs, other, db)
    ensures StringOr(map[], key, dt) == dt && BoolOr(map[], key, db) == db
  {
  }

  class PreferenceManager {
    /** The `my_prefs` file. */
    var prefs: map<string, PrefValue>

    constructor()
      ensures prefs == map[]
      ensures GetUserName() == "" && GetUserEmail() == "" && !GetUserLoginStatus()
    {
      prefs := map[];
    }

    function GetUserName(): string
      reads this
    {
      StringOr(prefs, UserNameKey, "")
    }

    function GetUserEmail(): string
      reads this
    {
      StringOr(prefs, UserEmailKey, "")
    }

    function GetUserLoginStatus(): bool
      reads this
    {
      BoolOr(prefs, LoggedInKey, false)
    }

    method SetUserName(name: string)
      modifies this
      ensures prefs == old(prefs)[UserNameKey := Text(name)]
      ensures GetUserName() == name
      ensures GetUserEmail() == old(GetUserEmail()) && GetUserLoginStatus() == old(GetUserLoginStatus())
    {
      prefs := prefs[UserNameKey := Text(name)];
    }

    method SetUserEmail(email: string)
      modifies this
      ensures prefs == old(prefs)[UserEmailKey := Text(email)]
      ensures GetUserEmail() == email
      ensures GetUserName() == old(GetUserName()) && GetUserLoginStatus() == old(GetUserLoginStatus())
    {
      prefs := prefs[UserEmailKey := Text(email)];
    }

    method SetUserLoginStatus(isLoggedIn: bool)
      modifies this
      ensures prefs == old(prefs)[LoggedInKey := Flag(isLoggedIn)]
      ensures GetUserLoginStatus() == isLoggedIn
      ensures GetUserName() == old(GetUserName()) && GetUserEmail() == old(GetUserEmail())
    {
      prefs := prefs[LoggedInKey := Flag(isLoggedIn)];
    }

    /** `clearUserData`: every key removed, so every reading is back at its default. */
    method ClearUserData()
      modifies this
      ensures prefs == map[]
      ensures GetUserName() == "" && GetUserEmail() == "" && !GetUserLoginStatus()
    {
      prefs := map[];
    }
  }
}
