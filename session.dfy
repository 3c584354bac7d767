/**
 * The session store (`AuthProvider`): at most one user, set by a stub login or
 * registration that only checks the shape of its inputs, cleared by logout.
 */
module Session {
  import opened Wrappers
  import opened Text

  datatype User = User(id: string, email: string, name: string, isAdmin: bool)

  /** `email.split("@")[0]`: the part of the address before its first `@`. */
  function LocalPart(email: string): (r: string)
    ensures r <= email
    ensures '@' !in r
    ensures |r| < |email| ==> email[|r|] == '@'
    decreases |email|
  {
    if email == [] || email[0] == '@' then [] else [email[0]] + LocalPart(email[1..])
  }

  /** The local part of `user@domain` is `user` when `user` has no `@`. */
  lemma {:induction false} LocalPartOfAddress(user: string, domain: string)
    requires '@' !in user
    ensures LocalPart(user + "@" + domain) == user
    decreases |user|
  {
    var email := user + "@" + domain;
    if user != [] {
      assert email[0] == user[0];
      assert email[1..] == user[1..] + "@" + domain;
      LocalPartOfAddress(user[1..], domain);
    }
  }

  /** The login gate: any non-empty email with a password of at least six characters. */
  predicate LoginAllowed(email: string, password: string) {
    email != "" && |password| >= 6
  }

  /** The registration gate: non-empty name and email, password of at least six characters. */
  predicate RegisterAllowed(name: string, email: string, password: string) {
    name != "" && email != "" && |password| >= 6
  }

  /** The user a successful login fabricates from the email. */
  function LoginUser(email: string): User {
    User("1", email, LocalPart(email), Contains(email, "admin"))
  }

  /** The user a successful registration creates. */
  function RegisteredUser(name: string, email: string): User {
    User("1", email, name, false)
  }

  /** A logged-in user is an administrator exactly when "admin" occurs in the email. */
  lemma LoginAdminIff(email: string)
    ensures LoginUser(email).isAdmin <==> exists i :: OccursAt(email, "admin", i)
    ensures LoginUser(email).email == email && LoginUser(email).id == "1"
  {
    ContainsIffOccurs(email, "admin");
  }

  /** The three login cases that document the stub's behaviour. */
  lemma LoginExamples()
    ensures LoginAllowed("a@b.com", "secret1")
    ensures LoginUser("a@b.com").name == "a" && !LoginUser("a@b.com").isAdmin
    ensures LoginUser("admin@x.com").isAdmin
    ensures !LoginAllowed("a@b.com", "abc")
  {
    LocalPartOfAddress("a", "b.com");
    assert "a@b.com" == "a" + "@" + "b.com";
    assert "a@b.com"[..5] != "admin" && "a@b.com"[1..] == "@b.com";
    assert "@b.com"[..5] != "admin" && "@b.com"[1..] == "b.com";
    assert "b.com"[..5] != "admin" && "b.com"[1..] == ".com";
    assert "admin@x.com"[..5] == "admin";
  }

  /** `AuthProvider`: the `user` state and the operations that set and clear it. */
  class SessionStore {
    var user: Option<User>

    constructor ()
      ensures user == None
    {
      user := None;
    }

    /** `isAuthenticated = !!user` */
    function IsAuthenticated(): bool
      reads this
    {
      user.Some?
    }

    /** `login`: on success the fabricated user replaces any current one. */
    method Login(email: string, password: string) returns (ok: bool)
      modifies this
      ensures ok == LoginAllowed(email, password)
      ensures user == if ok then Some(LoginUser(email)) else old(user)
      ensures ok ==> IsAuthenticated() && user.value.name == LocalPart(email)
    {
      if email != "" && |password| >= 6 {
        user := Some(LoginUser(email));
        return true;
      }
      return false;
    }

    /** `register`: on success the new user, never an administrator, replaces any current one. */
    method Register(name: string, email: string, password: string) returns (ok: bool)
      modifies this
      ensures ok == RegisterAllowed(name, email, password)
      ensures user == if ok then Some(RegisteredUser(name, email)) else old(user)
      ensures ok ==> IsAuthenticated() && !user.value.isAdmin
    {
      if name != "" && email != "" && |password| >= 6 {
        user := Some(RegisteredUser(name, email));
        return true;
      }
      return false;
    }

    /** `logout`: no user afterwards, whatever the state before. */
    method Logout()
      modifies this
      ensures user == None && !IsAuthenticated()
    {
      user := None;
    }
  }
}
