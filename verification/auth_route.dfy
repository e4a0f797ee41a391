/** The admin password gate on the server (`src/app/api/auth/route.ts`). The one
    setting it uses, the bcrypt hash under `admin_password_hash` in `admin_settings`,
    is a map from setting keys to values. bcrypt is a pair of functions fixed when the
    server is created: `hash(password, salt)` and `compare(password, hash)`; the salt
    is a parameter. Whether the settings query and the upsert reach the database are
    parameters too. */
module AuthRoute {
  import opened Types

  const PasswordKey: string := "admin_password_hash"
  const DefaultPassword: string := "paletto2024"

  /** The answer to a login: success with a token, or 401. The token is opaque. */
  datatype LoginResponse = LoggedIn | Unauthorized

  /** The answer to a password change: success, 401, or 500 when the upsert fails. */
  datatype ChangeResponse = Changed | WrongPassword | WriteFailed

  class AuthServer {
    /** `process.env.ADMIN_PASSWORD`. */
    const env: Option<string>
    const hash: (string, nat) -> string
    const compare: (string, string) -> bool
    var settings: map<string, string>

    constructor (env: Option<string>, hash: (string, nat) -> string, compare: (string, string) -> bool,
                 settings: map<string, string>)
      ensures this.env == env && this.hash == hash && this.compare == compare
      ensures this.settings == settings
    {
      this.env, this.hash, this.compare := env, hash, compare;
      this.settings := settings;
    }

    /** What bcrypt guarantees: a password matches every hash made from it. */
    ghost predicate Sound() {
      forall p, salt :: compare(p, hash(p, salt))
    }

    /** `process.env.ADMIN_PASSWORD || 'paletto2024'`: an unset or empty variable
        gives the built-in password. */
    function Fallback(): (pw: string)
      ensures pw != ""
      ensures env.Some? && env.value != "" ==> pw == env.value
      ensures env.None? || env.value == "" ==> pw == DefaultPassword
    {
      if env.Some? && env.value != "" then env.value else DefaultPassword
    }

    /** Whether a password passes the gate against the stored settings: the fallback
        password always does; any other password only when the settings query
        succeeds, a hash is stored and bcrypt matches the password against it. */
    predicate Accepts(stored: map<string, string>, pw: string, lookupOk: bool) {
      pw == Fallback() || (lookupOk && PasswordKey in stored && compare(pw, stored[PasswordKey]))
    }

    /** POST: the stored hash first (or, when the query fails, the fallback), then the
        fallback once more if that did not succeed. Nothing is written. */
    method Login(pw: string, lookupOk: bool) returns (resp: LoginResponse)
      ensures resp == LoggedIn <==> Accepts(settings, pw, lookupOk)
    {
      var isValid := false;
      if lookupOk {
        if PasswordKey in settings {
          isValid := compare(pw, settings[PasswordKey]);
        }
      } else {
        isValid := pw == Fallback();
      }
      if !isValid {
        isValid := pw == Fallback();
      }
      if isValid {
        return LoggedIn;
      }
      return Unauthorized;
    }

    /** PUT: the current password is checked against the fallback first and against
        the stored hash only if that fails, a failed query counting as a mismatch.
        A wrong password answers 401 and a failed upsert 500, both with the settings
        unchanged; otherwise the hash of the new password replaces or creates the one
        setting and nothing else. */
    method ChangePassword(current: string, newPassword: string, salt: nat, lookupOk: bool, writeOk: bool)
      returns (resp: ChangeResponse)
      modifies this
      ensures !Accepts(old(settings), current, lookupOk) ==> resp == WrongPassword && settings == old(settings)
      ensures Accepts(old(settings), current, lookupOk) && !writeOk ==>
                resp == WriteFailed && settings == old(settings)
      ensures Accepts(old(settings), current, lookupOk) && writeOk ==>
                resp == Changed && settings == old(settings)[PasswordKey := hash(newPassword, salt)]
    {
      var isValid := current == Fallback();
      if !isValid {
        if lookupOk {
          if PasswordKey in settings {
            isValid := compare(current, settings[PasswordKey]);
          }
        }
      }
      if !isValid {
        return WrongPassword;
      }
      var h := hash(newPassword, salt);
      if !writeOk {
        return WriteFailed;
      }
      settings := settings[PasswordKey := h];
      return Changed;
    }

    /** A rotation never locks out the fallback password. */
    lemma RotationKeepsFallback(stored: map<string, string>, newPassword: string, salt: nat, lookupOk: bool)
      ensures Accepts(stored[PasswordKey := hash(newPassword, salt)], Fallback(), lookupOk)
    {
    }

    /** After a rotation the new password passes, provided bcrypt is sound and the
        settings query succeeds. */
    lemma RotationAcceptsNew(stored: map<string, string>, newPassword: string, salt: nat)
      requires Sound()
      ensures Accepts(stored[PasswordKey := hash(newPassword, salt)], newPassword, true)
    {
      assert compare(newPassword, hash(newPassword, salt));
    }

    /** When the settings query fails the stored hash plays no part: exactly the
        fallback password passes. */
    lemma LookupFailure(stored: map<string, string>, pw: string)
      ensures Accepts(stored, pw, false) <==> pw == Fallback()
    {
    }

    /** Rotating the password touches no setting but the hash. */
    lemma RotationIsUpsert(stored: map<string, string>, newPassword: string, salt: nat)
      ensures var after := stored[PasswordKey := hash(newPassword, salt)];
              after.Keys == stored.Keys + {PasswordKey} &&
              forall k :: k in stored && k != PasswordKey ==> after[k] == stored[k]
    {
    }
  }

  /** Changing the password with the current one and logging in with the new one
      succeeds when bcrypt is sound and the database answers, and the fallback still
      logs in afterwards. */
  method RotateThenLogin(server: AuthServer, current: string, newPassword: string, salt: nat)
    returns (changed: ChangeResponse, loginNew: LoginResponse, loginFallback: LoginResponse)
    modifies server
    requires server.Sound()
    requires server.Accepts(server.settings, current, true)
    ensures changed == Changed && loginNew == LoggedIn && loginFallback == LoggedIn
  {
    changed := server.ChangePassword(current, newPassword, salt, true, true);
    server.RotationAcceptsNew(old(server.settings), newPassword, salt);
    loginNew := server.Login(newPassword, true);
    loginFallback := server.Login(server.Fallback(), true);
  }
}
