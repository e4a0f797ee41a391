/** The client-side admin session (`src/context/AuthContext.tsx`): a flag `isAdmin`
    mirrored in the browser's stored item `paletto_admin_token`, which is either
    absent or holds some string. */
module AuthSession {
  import opened Types

  const AdminPassword: string := "paletto2024"
  const AuthenticatedToken: string := "authenticated"

  class AuthProvider {
    var isAdmin: bool
    /** The stored `paletto_admin_token`. */
    var token: Option<string>

    /** The flag is set exactly when the stored token says so. */
    predicate Mirrored()
      reads this
    {
      isAdmin <==> token == Some(AuthenticatedToken)
    }

    /** Mounting with whatever the browser has stored: the flag starts false and the
        effect sets it when the stored token is exactly `authenticated`. */
    constructor (stored: Option<string>)
      ensures token == stored
      ensures isAdmin <==> stored == Some(AuthenticatedToken)
      ensures Mirrored()
    {
      isAdmin := false;
      token := stored;
      new;
      if token == Some(AuthenticatedToken) {
        isAdmin := true;
      }
    }

    /** `login`: only the built-in password logs in, setting the flag and the token;
        any other password changes nothing. */
    method Login(password: string) returns (ok: bool)
      modifies this
      ensures ok <==> password == AdminPassword
      ensures ok ==> isAdmin && token == Some(AuthenticatedToken)
      ensures !ok ==> isAdmin == old(isAdmin) && token == old(token)
      ensures old(Mirrored()) ==> Mirrored()
    {
      if password == AdminPassword {
        isAdmin := true;
        token := Some(AuthenticatedToken);
        return true;
      }
      return false;
    }

    /** `logout`: from any state the flag is cleared and the token removed. */
    method Logout()
      modifies this
      ensures !isAdmin && token == None
      ensures Mirrored()
    {
      isAdmin := false;
      token := None;
    }
  }

  /** Logging in and reloading the page: the new provider is an admin when the login
      succeeded or the stored token already said so. */
  method LoginThenRemount(stored: Option<string>, password: string) returns (ok: bool, remounted: bool)
    ensures ok <==> password == AdminPassword
    ensures remounted <==> ok || stored == Some(AuthenticatedToken)
  {
    var session := new AuthProvider(stored);
    ok := session.Login(password);
    var again := new AuthProvider(session.token);
    remounted := again.isAdmin;
  }

  /** Logging out and reloading the page never leaves an admin behind, and logging out
      twice is logging out once. */
  method LogoutThenRemount(stored: Option<string>) returns (once: Option<string>, twice: Option<string>, remounted: bool)
    ensures once == None && twice == once
    ensures !remounted
  {
    var session := new AuthProvider(stored);
    session.Logout();
    once := session.token;
    session.Logout();
    twice := session.token;
    var again := new AuthProvider(session.token);
    remounted := again.isAdmin;
  }
}
