/**
 * `AuthManager`: the login state kept in the preferences, and the name the
 * app greets the user with. Logging out also empties both tables of the
 * database; the background job that does so is taken as finishing at once.
 */
module Session {
  import opened Text
  import opened Preferences
  import opened Store

  const DefaultUserName: string := "User"

  predicate IsLowerAscii(c: char) { 'a' <= c <= 'z' }

  function UpperAscii(c: char): (u: char)
    requires IsLowerAscii(c)
    ensures 'A' <= u <= 'Z'
  {
    (c as int - 'a' as int + 'A' as int) as char
  }

  /** `replaceFirstChar { if (it.isLowerCase()) it.titlecase() else it.toString() }` on ASCII letters. */
  function CapitalizeFirst(s: string): string {
    if s != "" && IsLowerAscii(s[0]) then [UpperAscii(s[0])] + s[1..] else s
  }

  /** The name derived from an e-mail: the part before the first '@', first letter capitalised. */
  function NameFromEmail(email: string): string {
    CapitalizeFirst(SubstringBefore(email, '@'))
  }

  /**
   * The derived name is the local part of the address with at most its
   * first character changed, from a lowercase letter to its capital.
   */
  lemma NameFromEmailSpec(email: string)
    ensures var local, r := SubstringBefore(email, '@'), NameFromEmail(email);
      && |r| == |local| && (local != "" ==> r[1..] == local[1..]) && '@' !in r
      && (local != "" && IsLowerAscii(local[0]) ==> r[0] == UpperAscii(local[0]))
      && (local != "" && !IsLowerAscii(local[0]) ==> r[0] == local[0])
      && email[..|r|] == local
  {
    var local, r := SubstringBefore(email, '@'), NameFromEmail(email);
    if local != "" && IsLowerAscii(local[0]) {
      assert r == [UpperAscii(local[0])] + local[1..];
      assert '@' !in local[1..];
    }
  }

  /** The local part of `local + "@" + domain` is `local`, when `local` holds no '@'. */
  lemma NameFromAddress(local: string, domain: string)
    requires '@' !in local
    ensures NameFromEmail(local + "@" + domain) == CapitalizeFirst(local)
  {
    SubstringBeforeSplit(local, '@', domain);
  }

  /** From the tests: a lowercase initial is capitalised, the rest of the local part kept. */
  lemma NameFromEmailLowercase()
    ensures NameFromEmail("john.doe" + "@" + "example.com") == "John.doe"
  {
    var john := "john.doe";
    assert '@' !in john;
    NameFromAddress(john, "example.com");
    assert UpperAscii('j') == 'J';
    assert john[1..] == "ohn.doe";
  }

  /** From the tests: a capital initial is kept. */
  lemma NameFromEmailCapital()
    ensures NameFromEmail("Bob@example.com") == "Bob"
  {
    var bob := "Bob";
    assert '@' !in bob;
    NameFromAddress(bob, "example.com");
    assert bob + "@" + "example.com" == "Bob@example.com";
  }

  class AuthManager {
    const prefs: PreferenceManager
    /** The database behind `expenseDao` and `categoryDao`. */
    const store: LedgerStore

    constructor(prefs: PreferenceManager, store: LedgerStore)
      ensures this.prefs == prefs && this.store == store
    {
      this.prefs := prefs;
      this.store := store;
    }

    /** `login(email, name = "User")`: logged in, with that e-mail and name. */
    method Login(email: string, name: string := DefaultUserName)
      modifies prefs
      ensures IsUserLoggedIn() && GetUserEmail() == email && prefs.GetUserName() == name
      ensures name != "" ==> GetUserName() == name
      ensures name == "" ==> GetUserName() == NameFromEmail(email)
    {
      prefs.SetUserLoginStatus(true);
      prefs.SetUserEmail(email);
      prefs.SetUserName(name);
    }

    /** `logout`: the flag off, the preferences cleared, then both tables emptied. */
    method Logout()
      requires store.Valid()
      modifies prefs, store
      ensures store.Valid()
      ensures prefs.prefs == map[]
      ensures !IsUserLoggedIn() && GetUserEmail() == "" && GetUserName() == ""
      ensures store.transactions == [] && store.categories == []
      ensures store.transactionSeq == old(store.transactionSeq) && store.categorySeq == old(store.categorySeq)
    {
      prefs.SetUserLoginStatus(false);
      prefs.ClearUserData();
      store.DeleteAllTransactions();
      store.DeleteAllCategories();
    }

    function IsUserLoggedIn(): bool
      reads prefs
    {
      prefs.GetUserLoginStatus()
    }

    function GetUserEmail(): string
      reads prefs
    {
      prefs.GetUserEmail()
    }

    /** The stored name, or the one derived from the stored e-mail when none is stored. */
    function GetUserName(): string
      reads prefs
    {
      var name := prefs.GetUserName();
      if name != "" then name else NameFromEmail(prefs.GetUserEmail())
    }
  }
}
