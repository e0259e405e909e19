/**
 * The shopper's session: a mock sign-in, sign-up and sign-out that accept
 * any non-empty credentials. The one-second simulated delay is not
 * modelled; a thrown error is returned as `Some(message)`.
 */
module AuthContext {
  import opened Types

  /** The fixture account every session is built from. */
  const MockUser: User := User("1", "user@example.com", "Utilisateur Test", Customer, "2025-01-01T00:00:00Z")

  const SignInError: string := "Email et mot de passe requis"
  const SignUpError: string := "Tous les champs sont requis"

  /** A user the provider can hold: the mock account, with any email and name. */
  predicate IsMockSession(u: User)
  {
    u.id == MockUser.id && u.role == Customer && u.created_at == MockUser.created_at
  }

  /** The session after a successful sign-in. */
  function SignedIn(email: string): (u: User)
    ensures IsMockSession(u) && u.email == email && u.full_name == MockUser.full_name
  {
    MockUser.(email := email)
  }

  /** The session after a successful sign-up. */
  function SignedUp(email: string, fullName: string): (u: User)
    ensures IsMockSession(u) && u.email == email && u.full_name == fullName
  {
    MockUser.(email := email, full_name := fullName)
  }

  /** A signed-in shopper is always a customer, never an administrator. */
  lemma SessionIsCustomer(u: User)
    requires IsMockSession(u)
    ensures RoleName(u.role) == "customer"
    ensures RoleName(u.role) != "admin" && RoleName(u.role) != "super_admin"
  {
  }

  class AuthProvider {
    var user: Option<User>
    var loading: bool

    /** Every user the provider holds is a mock session. */
    ghost predicate Valid()
      reads this
    {
      user.Some? ==> IsMockSession(user.value)
    }

    constructor ()
      ensures Valid() && user == None && !loading
    {
      user := None;
      loading := false;
    }

    /**
     * Succeeds iff both email and password are non-empty: the user becomes
     * the mock account with that email and loading ends. On failure the user
     * is unchanged and loading stays on.
     */
    method SignIn(email: string, password: string) returns (error: Option<string>)
      requires Valid()
      modifies this
      ensures Valid()
      ensures error.None? <==> email != "" && password != ""
      ensures error.None? ==> user == Some(SignedIn(email)) && !loading
      ensures error.Some? ==> error.value == SignInError && user == old(user) && loading
    {
      loading := true;
      if email != "" && password != "" {
        user := Some(MockUser.(email := email));
      } else {
        return Some(SignInError);
      }
      loading := false;
      error := None;
    }

    /**
     * Succeeds iff email, password and full name are all non-empty: the
     * user becomes the mock account with that email and name. On failure the
     * user is unchanged and loading stays on.
     */
    method SignUp(email: string, password: string, fullName: string) returns (error: Option<string>)
      requires Valid()
      modifies this
      ensures Valid()
      ensures error.None? <==> email != "" && password != "" && fullName != ""
      ensures error.None? ==> user == Some(SignedUp(email, fullName)) && !loading
      ensures error.Some? ==> error.value == SignUpError && user == old(user) && loading
    {
      loading := true;
      if email != "" && password != "" && fullName != "" {
        user := Some(MockUser.(email := email, full_name := fullName));
      } else {
        return Some(SignUpError);
      }
      loading := false;
      error := None;
    }

    /** Clears the session; loading is left as it is. */
    method SignOut()
      requires Valid()
      modifies this
      ensures Valid()
      ensures user == None && loading == old(loading)
    {
      user := None;
    }
  }
}
