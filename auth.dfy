/**
 * The authentication endpoints of the Go backend: registering a user,
 * logging in (which issues the claims of a token valid for a day) and
 * resetting one's own password. Passwords are stored only as digests.
 */
module Auth {
  import opened Base
  import opened Store
  import opened Passwords

  /** A token lives for 24 hours, counted in seconds. */
  const TokenLifetime: int := 24 * 60 * 60

  /** The claims a signed login token carries. */
  datatype Claims = Claims(email: string, exp: int)

  const LoginFailed := Failure(Unauthorized, "Invalid email or password")

  /** The password `attempt` verifies against the digest stored for `email`. */
  predicate CanLogin(users: map<string, UserDoc>, email: string, attempt: string) {
    email in users && Matches(users[email].password, attempt)
  }

  // ---------------------------------------------------------------------
  // Registration

  /** The guards of `CreateUserHandler`; on success, the document to insert. */
  function RegisterCheck(users: map<string, UserDoc>, email: string, password: string, salt: Option<Salt>)
    : (r: Result<UserDoc>)
    ensures r.Ok? <==> email != "" && password != "" && email !in users && salt.Some?
    ensures r.Ok? ==> r.value.email == email && r.value.password != password && r.value.updatedAt.None?
    ensures (email == "" || password == "") ==> r == Err(Failure(BadRequest, "Email and password are required"))
    ensures email != "" && password != "" && email in users ==>
              r == Err(Failure(Conflict, "User with this email already exists"))
  {
    if email == "" || password == "" then Err(Failure(BadRequest, "Email and password are required"))
    else if email in users then Err(Failure(Conflict, "User with this email already exists"))
    else if salt.None? then Err(Failure(InternalError, "Failed to hash password"))
    else Ok(UserDoc(email, Hash(password, salt.value), None))
  }

  /**
   * `CreateUserHandler`: inserts the user with the digest of the password
   * and answers with the email alone.
   */
  method Register(db: Db, email: string, password: string, salt: Option<Salt>) returns (r: Result<string>)
    requires db.Valid()
    modifies db`users
    ensures db.Valid()
    ensures var check := old(RegisterCheck(db.users, email, password, salt));
      && (check.Err? ==> r == Err(check.failure) && db.users == old(db.users))
      && (check.Ok? ==> r == Ok(email) && db.users == old(db.users)[email := check.value])
  {
    if email == "" || password == "" {
      return Err(Failure(BadRequest, "Email and password are required"));
    }
    if email in db.users {
      return Err(Failure(Conflict, "User with this email already exists"));
    }
    if salt.None? {
      return Err(Failure(InternalError, "Failed to hash password"));
    }
    var user := UserDoc(email, Hash(password, salt.value), None);
    db.users := db.users[email := user];
    r := Ok(user.email);
  }

  /**
   * After a registration the new user logs in with the password given
   * and with no other, and every other user logs in exactly as before.
   */
  lemma RegisterThenLogin(users: map<string, UserDoc>, email: string, password: string, salt: Option<Salt>,
                          who: string, attempt: string)
    requires RegisterCheck(users, email, password, salt).Ok?
    ensures var after := users[email := RegisterCheck(users, email, password, salt).value];
      && (CanLogin(after, email, attempt) <==> attempt == password)
      && (who != email ==> (CanLogin(after, who, attempt) <==> CanLogin(users, who, attempt)))
  {
    HashThenMatch(password, salt.value, attempt);
  }

  /** A second registration of the same email is refused with a conflict. */
  lemma RegisterTwiceConflicts(users: map<string, UserDoc>, email: string, p1: string, s1: Option<Salt>,
                               p2: string, s2: Option<Salt>)
    requires RegisterCheck(users, email, p1, s1).Ok? && p2 != ""
    ensures var after := users[email := RegisterCheck(users, email, p1, s1).value];
      RegisterCheck(after, email, p2, s2) == Err(Failure(Conflict, "User with this email already exists"))
  {
  }

  // ---------------------------------------------------------------------
  // Login

  /**
   * `LoginHandler`: the claims of a token for `email`, expiring a day
   * after `now`, exactly when the password verifies against the stored
   * digest; an unknown email and a wrong password get the same answer.
   */
  method Login(db: Db, email: string, password: string, now: int) returns (r: Result<Claims>)
    requires db.Valid()
    ensures r.Ok? <==> CanLogin(db.users, email, password)
    ensures r.Ok? ==> r.value == Claims(email, now + TokenLifetime)
    ensures r.Err? ==> r.failure == LoginFailed
  {
    if email !in db.users {
      return Err(LoginFailed);
    }
    var user := db.users[email];
    if !Matches(user.password, password) {
      return Err(LoginFailed);
    }
    r := Ok(Claims(user.email, now + TokenLifetime));
  }

  // ---------------------------------------------------------------------
  // Password reset

  /**
   * The guards of `ResetPasswordHandler`; on success, the new digest. Only
   * the user the token was issued to can reset, and only an existing one.
   */
  function ResetCheck(users: map<string, UserDoc>, claims: Option<string>, email: string, newPassword: string,
                      salt: Option<Salt>): (r: Result<string>)
    ensures r.Ok? <==> claims == Some(email) && email != "" && newPassword != "" && email in users && salt.Some?
    ensures r.Ok? ==> r.value != newPassword && Matches(r.value, newPassword)
    ensures claims.Some? && email != "" && newPassword != "" && email != claims.value ==>
              r == Err(Failure(Forbidden, "Cannot reset password for another user"))
  {
    if claims.None? then Err(InvalidClaims)
    else if email == "" || newPassword == "" then Err(Failure(BadRequest, "Email and new password are required"))
    else if email != claims.value then Err(Failure(Forbidden, "Cannot reset password for another user"))
    else if email !in users then Err(Failure(NotFound, "User not found"))
    else if salt.None? then Err(Failure(InternalError, "Failed to hash new password"))
    else
      HashThenMatch(newPassword, salt.value, newPassword);
      Ok(Hash(newPassword, salt.value))
  }

  /** `ResetPasswordHandler`: stores the new digest and the time of the change. */
  method ResetPassword(db: Db, claims: Option<string>, email: string, newPassword: string, salt: Option<Salt>, now: int)
    returns (r: Result<string>)
    requires db.Valid()
    modifies db`users
    ensures db.Valid()
    ensures var check := old(ResetCheck(db.users, claims, email, newPassword, salt));
      && (check.Err? ==> r == Err(check.failure) && db.users == old(db.users))
      && (check.Ok? ==> r == Ok("Password reset successfully")
                        && db.users == old(db.users)[email := old(db.users)[email].(password := check.value,
                                                                                     updatedAt := Some(now))])
  {
    if claims.None? {
      return Err(InvalidClaims);
    }
    if email == "" || newPassword == "" {
      return Err(Failure(BadRequest, "Email and new password are required"));
    }
    if email != claims.value {
      return Err(Failure(Forbidden, "Cannot reset password for another user"));
    }
    if email !in db.users {
      return Err(Failure(NotFound, "User not found"));
    }
    if salt.None? {
      return Err(Failure(InternalError, "Failed to hash new password"));
    }
    var digest := Hash(newPassword, salt.value);
    db.users := db.users[email := db.users[email].(password := digest, updatedAt := Some(now))];
    r := Ok("Password reset successfully");
  }

  /**
   * After a reset the user logs in with the new password and with no
   * other (the old one included), and every other user as before.
   */
  lemma ResetThenLogin(users: map<string, UserDoc>, claims: Option<string>, email: string, newPassword: string,
                       salt: Option<Salt>, now: int, who: string, attempt: string)
    requires ResetCheck(users, claims, email, newPassword, salt).Ok?
    ensures var digest := ResetCheck(users, claims, email, newPassword, salt).value;
      var after := users[email := users[email].(password := digest, updatedAt := Some(now))];
      && (CanLogin(after, email, attempt) <==> attempt == newPassword)
      && (who != email ==> (CanLogin(after, who, attempt) <==> CanLogin(users, who, attempt)))
  {
    HashThenMatch(newPassword, salt.value, attempt);
  }
}
