/**
 * The sign-in / sign-up form: the user name suggested from the e-mail, the
 * checks run before any request goes out, and the name recorded on login.
 *
 * The platform's e-mail pattern is a parameter (`emailMatches`); the
 * network sign-in itself is not modelled, only what the form does before
 * it and with its outcome.
 */
module AuthScreen {
  import opened Wrappers
  import opened Text
  import opened Session

  /** `replace(".", "_").replace("-", "_")`. */
  function Sanitize(s: string): (r: string)
    ensures |r| == |s|
    ensures forall i :: 0 <= i < |s| ==> r[i] == (if s[i] == '.' || s[i] == '-' then '_' else s[i])
  {
    ReplaceChar(ReplaceChar(s, '.', '_'), '-', '_')
  }

  /** The user name suggested when the e-mail changes: the sanitised local part, or "" without an '@'. */
  function AutoUserName(email: string): string {
    if email != "" && '@' in email then Sanitize(SubstringBefore(email, '@')) else ""
  }

  /**
   * The suggestion is as long as the local part, free of '.', '-' and '@',
   * and equal to it wherever the local part has another character.
   */
  lemma AutoUserNameSpec(email: string)
    ensures '@' !in email ==> AutoUserName(email) == ""
    ensures var local, r := SubstringBefore(email, '@'), AutoUserName(email);
      '@' in email ==>
        && |r| == |local|
        && '.' !in r && '-' !in r && '@' !in r
        && (forall i :: 0 <= i < |local| && local[i] != '.' && local[i] != '-' ==> r[i] == local[i])
  {
    var local, r := SubstringBefore(email, '@'), AutoUserName(email);
    if '@' in email {
      assert email != "";
      assert '@' !in r by {
        forall i | 0 <= i < |r| ensures r[i] != '@' {
          assert local[i] != '@';
        }
      }
    }
  }

  /** For `local@domain` with no '@' in `local`, the suggestion is `local` sanitised. */
  lemma AutoUserNameOfAddress(local: string, domain: string)
    requires '@' !in local
    ensures AutoUserName(local + "@" + domain) == Sanitize(local)
  {
    SubstringBeforeSplit(local, '@', domain);
    assert (local + "@" + domain)[|local|] == '@';
  }

  lemma AutoUserNameExample()
    ensures AutoUserName("jo.d-s" + "@" + "x.com") == "jo_d_s"
  {
    var local := "jo.d-s";
    assert '@' !in local;
    AutoUserNameOfAddress(local, "x.com");
    var r := Sanitize(local);
    assert r[0] == 'j' && r[1] == 'o' && r[2] == '_' && r[3] == 'd' && r[4] == '_' && r[5] == 's';
  }

  const FillAllFields: string := "Please fill in all required fields"
  const ConfirmPassword: string := "Please confirm your password"
  const InvalidEmail: string := "Please enter a valid email address"
  const ShortPassword: string := "Password must be at least 6 characters long"
  const PasswordMismatch: string := "Passwords do not match"
  const MinPasswordLength: nat := 6

  /** Every check the form runs passes. */
  predicate AllChecksPass(email: string, password: string, confirm: string, isLogin: bool, emailMatches: string -> bool) {
    && email != "" && password != ""
    && (isLogin || confirm != "")
    && emailMatches(email)
    && |password| >= MinPasswordLength
    && (isLogin || password == confirm)
  }

  /** The form's state that `handleAuthentication` writes through its callbacks. */
  class AuthFormState {
    var errorMessage: string
    var isLoading: bool

    constructor()
      ensures errorMessage == "" && !isLoading
    {
      errorMessage, isLoading := "", false;
    }

    /**
     * `handleAuthentication` up to the network request: the checks in
     * order, the first failing one setting its message only; when all pass,
     * loading starts and the message clears. Returns whether the request goes out.
     */
    method HandleAuthentication(email: string, password: string, confirm: string, isLogin: bool,
                                emailMatches: string -> bool)
      returns (proceed: bool)
      modifies this
      ensures proceed <==> AllChecksPass(email, password, confirm, isLogin, emailMatches)
      ensures proceed ==> isLoading && errorMessage == ""
      ensures !proceed ==> isLoading == old(isLoading)
      ensures email == "" || password == "" ==> errorMessage == FillAllFields
      ensures email != "" && password != "" && !isLogin && confirm == "" ==> errorMessage == ConfirmPassword
      ensures errorMessage == InvalidEmail <==>
        email != "" && password != "" && (isLogin || confirm != "") && !emailMatches(email)
      ensures errorMessage == ShortPassword <==>
        email != "" && password != "" && (isLogin || confirm != "") && emailMatches(email) && |password| < MinPasswordLength
      ensures errorMessage == PasswordMismatch <==>
        email != "" && (isLogin || confirm != "") && emailMatches(email) && |password| >= MinPasswordLength
        && !isLogin && password != confirm
      ensures !proceed ==> errorMessage in {FillAllFields, ConfirmPassword, InvalidEmail, ShortPassword, PasswordMismatch}
    {
      if email == "" || password == "" {
        errorMessage := FillAllFields;
        return false;
      }
      if !isLogin && confirm == "" {
        errorMessage := ConfirmPassword;
        return false;
      }
      if !emailMatches(email) {
        errorMessage := InvalidEmail;
        return false;
      }
      if |password| < MinPasswordLength {
        errorMessage := ShortPassword;
        return false;
      }
      if !isLogin && password != confirm {
        errorMessage := PasswordMismatch;
        return false;
      }
      isLoading := true;
      errorMessage := "";
      proceed := true;
    }
  }

  /** The name recorded after signing in: the form's user name, or "User". */
  function SignInName(userName: string): (r: string)
    ensures r != ""
    ensures userName != "" ==> r == userName
  {
    if userName == "" then DefaultUserName else userName
  }

  /** The name recorded after signing up: the form's user name, or the sanitised local part of the e-mail. */
  function SignUpName(userName: string, email: string): (r: string)
    ensures userName != "" ==> r == userName
    ensures userName == "" ==> |r| == |SubstringBefore(email, '@')| && '.' !in r && '-' !in r
  {
    if userName == "" then Sanitize(SubstringBefore(email, '@')) else userName
  }

  /** When the suggestion is kept, signing up records exactly the suggested name. */
  lemma SignUpKeepsSuggestion(email: string)
    requires '@' in email
    ensures SignUpName(AutoUserName(email), email) == AutoUserName(email)
  {
  }

  /**
   * After the request succeeds: the account's e-mail (or the typed one when
   * the account has none) and the chosen name go to `AuthManager.login`.
   */
  method CompleteAuthentication(authManager: AuthManager, accountEmail: Option<string>, email: string,
                                userName: string, isLogin: bool)
    modifies authManager.prefs
    ensures authManager.IsUserLoggedIn()
    ensures authManager.GetUserEmail() == if accountEmail.Some? then accountEmail.value else email
    ensures isLogin ==> authManager.GetUserName() == SignInName(userName)
    ensures !isLogin && userName != "" ==> authManager.GetUserName() == userName
    ensures !isLogin && userName == "" && Sanitize(SubstringBefore(email, '@')) != "" ==>
      authManager.GetUserName() == Sanitize(SubstringBefore(email, '@'))
    ensures !isLogin && userName == "" && Sanitize(SubstringBefore(email, '@')) == "" ==>
      authManager.GetUserName() == NameFromEmail(authManager.GetUserEmail())
  {
    var recorded := if accountEmail.Some? then accountEmail.value else email;
    if isLogin {
      authManager.Login(recorded, SignInName(userName));
    } else {
      authManager.Login(recorded, SignUpName(userName, email));
    }
  }
}
