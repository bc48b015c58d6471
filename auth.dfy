/**
 * The in-memory account store and its `/signup`, `/login` and `/verify`
 * handlers (server/routes/auth.js).
 *
 * Password hashing, hash comparison and token signing are kept abstract as
 * the functions of a `Crypto` value; the fresh user id and the clock reading
 * a token is signed at are inputs of the handlers.  A missing body field
 * reads as "".
 */
module Auth {
  import opened Text

  /** A stored account (`createdAt` is not modelled). */
  datatype User = User(id: string, name: string, email: string, passwordHash: string, verified: bool)

  /** The `{ id, email, name }` object that responses and tokens carry. */
  datatype PublicUser = PublicUser(id: string, email: string, name: string)

  /** The extra boolean a 400 or 401 body may carry. */
  datatype Flag = NoFlag | UserExists | UserNotFound

  /** A handler's response: an error status with its body, a session, or the verification answer. */
  datatype Reply =
    | Failure(status: int, error: string, flag: Flag)
    | Session(token: string, user: PublicUser)
    | Confirmed

  /**
   * bcrypt's `hash` and `compare`, and `signToken`, as given functions.  A
   * JWT stamps its issue time (`iat`, whole seconds) into the token and
   * derives its expiry from it, so `sign` takes that time as well as the
   * payload: the same user signed at two different seconds may get two
   * different tokens.
   */
  datatype Crypto = Crypto(hash: string -> string, compare: (string, string) -> bool, sign: (PublicUser, int) -> string)

  const MissingSignupField := "Missing name, email, or password"
  const ShortPassword := "Password must be at least 6 characters"
  const AlreadyRegistered := "Email already registered"
  const MissingLoginField := "Missing email or password"
  const NotFound := "User not found. Please create an account."
  const WrongPassword := "Invalid password. Please check and try again."
  const MissingToken := "Missing token"

  /** The public view of a stored record. */
  function Public(u: User): PublicUser
  {
    PublicUser(u.id, u.email, u.name)
  }

  /** What every store built by signup satisfies: records sit under their own email, and none is verified. */
  predicate Consistent(users: map<string, User>)
  {
    forall e :: e in users ==> users[e].email == e && e != [] && users[e].name != [] && !users[e].verified
  }

  /** The signup handler on a store: its reply and the store afterwards, which stays consistent. */
  function SignupOutcome(users: map<string, User>, crypto: Crypto, name: string, email: string, password: string, newId: string, now: int)
    : (r: (Reply, map<string, User>))
    ensures Consistent(users) ==> Consistent(r.1)
  {
    if name == [] || email == [] || password == [] then (Failure(400, MissingSignupField, NoFlag), users)
    else if Utf16Length(password) < 6 then (Failure(400, ShortPassword, NoFlag), users)
    else if email in users then (Failure(400, AlreadyRegistered, UserExists), users)
    else
      var user := User(newId, name, email, crypto.hash(password), false);
      (Session(crypto.sign(Public(user), now), Public(user)), users[email := user])
  }

  /** The login handler on a store: a session is only ever opened for a registered email whose hash matches. */
  function LoginOutcome(users: map<string, User>, crypto: Crypto, email: string, password: string, now: int): (r: Reply)
    ensures r.Session? ==> email in users && crypto.compare(password, users[email].passwordHash)
    ensures r.Session? ==> r.user == Public(users[email]) && r.token == crypto.sign(r.user, now)
  {
    if email == [] || password == [] then Failure(400, MissingLoginField, NoFlag)
    else if email !in users then Failure(401, NotFound, UserNotFound)
    else if !crypto.compare(password, users[email].passwordHash) then Failure(401, WrongPassword, NoFlag)
    else Session(crypto.sign(Public(users[email]), now), Public(users[email]))
  }

  /** The verify handler: any non-empty token is confirmed without being read. */
  function Verify(token: string): (r: Reply)
    ensures r.Confirmed? <==> token != []
    ensures !r.Confirmed? ==> r == Failure(400, MissingToken, NoFlag)
  {
    if token == [] then Failure(400, MissingToken, NoFlag) else Confirmed
  }

  /** The module-level `users` object, with the handlers that read and update it. */
  class UserStore {
    var users: map<string, User>
    const crypto: Crypto

    constructor(crypto: Crypto)
      ensures users == map[] && this.crypto == crypto
      ensures Valid()
    {
      users := map[];
      this.crypto := crypto;
    }

    ghost predicate Valid()
      reads this
    {
      Consistent(users)
    }

    /** `POST /signup`. */
    method Signup(name: string, email: string, password: string, newId: string, now: int) returns (reply: Reply)
      requires Valid()
      modifies this
      ensures Valid()
      ensures (reply, users) == SignupOutcome(old(users), crypto, name, email, password, newId, now)
    {
      if name == [] || email == [] || password == [] {
        return Failure(400, MissingSignupField, NoFlag);
      }
      if Utf16Length(password) < 6 {
        return Failure(400, ShortPassword, NoFlag);
      }
      if email in users {
        return Failure(400, AlreadyRegistered, UserExists);
      }
      var hash := crypto.hash(password);
      users := users[email := User(newId, name, email, hash, false)];
      var token := crypto.sign(Public(users[email]), now);
      reply := Session(token, PublicUser(newId, email, name));
    }

    /**
     * `POST /login`: reads the store and never changes it.  A missing field is
     * a 400, an unknown email a 401 with `userNotFound`, a hash mismatch a
     * 401; otherwise the session of the stored record.
     */
    method Login(email: string, password: string, now: int) returns (reply: Reply)
      requires Valid()
      ensures email == [] || password == [] ==> reply == Failure(400, MissingLoginField, NoFlag)
      ensures email != [] && password != [] && email !in users ==> reply == Failure(401, NotFound, UserNotFound)
      ensures email != [] && password != [] && email in users && !crypto.compare(password, users[email].passwordHash) ==>
                reply == Failure(401, WrongPassword, NoFlag)
      ensures reply.Session? <==> email != [] && password != [] && email in users && crypto.compare(password, users[email].passwordHash)
      ensures reply.Session? ==> reply == Session(crypto.sign(Public(users[email]), now), Public(users[email]))
      ensures reply.Session? ==> reply.user.email == email
      ensures reply == LoginOutcome(users, crypto, email, password, now)
    {
      if email == [] || password == [] {
        return Failure(400, MissingLoginField, NoFlag);
      }
      if email !in users {
        return Failure(401, NotFound, UserNotFound);
      }
      var user := users[email];
      var passwordMatch := crypto.compare(password, user.passwordHash);
      if !passwordMatch {
        return Failure(401, WrongPassword, NoFlag);
      }
      var token := crypto.sign(Public(user), now);
      reply := Session(token, Public(user));
    }
  }

  // ---------------------------------------------------------------------
  // What the handlers promise

  /** Signup succeeds exactly when every field is present, the password has six UTF-16 units, and the email is new. */
  lemma SignupSucceedsIff(users: map<string, User>, crypto: Crypto, name: string, email: string, password: string, newId: string, now: int)
    ensures SignupOutcome(users, crypto, name, email, password, newId, now).0.Session?
            <==> name != [] && email != [] && password != [] && Utf16Length(password) >= 6 && email !in users
  {
  }

  /** The validations come in the source's order: missing field, then short password, then duplicate email. */
  lemma SignupErrorOrder(users: map<string, User>, crypto: Crypto, name: string, email: string, password: string, newId: string, now: int)
    ensures name == [] || email == [] || password == [] ==>
              SignupOutcome(users, crypto, name, email, password, newId, now).0 == Failure(400, MissingSignupField, NoFlag)
    ensures name != [] && email != [] && password != [] && Utf16Length(password) < 6 ==>
              SignupOutcome(users, crypto, name, email, password, newId, now).0 == Failure(400, ShortPassword, NoFlag)
    ensures name != [] && email != [] && Utf16Length(password) >= 6 && email in users ==>
              SignupOutcome(users, crypto, name, email, password, newId, now).0 == Failure(400, AlreadyRegistered, UserExists)
  {
  }

  /** A failed signup leaves the store exactly as it was, the existing record of a taken email included. */
  lemma SignupFailureChangesNothing(users: map<string, User>, crypto: Crypto, name: string, email: string, password: string, newId: string, now: int)
    requires !SignupOutcome(users, crypto, name, email, password, newId, now).0.Session?
    ensures SignupOutcome(users, crypto, name, email, password, newId, now).1 == users
  {
  }

  /**
   * A successful signup adds exactly one record, under the new email, holding
   * the name, the email, the hashed password and `verified = false`; every
   * other record is untouched, and the reply echoes `{ id, email, name }`.
   */
  lemma SignupAddsOneRecord(users: map<string, User>, crypto: Crypto, name: string, email: string, password: string, newId: string, now: int)
    requires SignupOutcome(users, crypto, name, email, password, newId, now).0.Session?
    ensures var (reply, users') := SignupOutcome(users, crypto, name, email, password, newId, now);
            && email !in users
            && users'.Keys == users.Keys + {email}
            && users'[email] == User(newId, name, email, crypto.hash(password), false)
            && (forall e :: e in users ==> users'[e] == users[e])
            && reply.user == PublicUser(newId, email, name)
            && reply.token == crypto.sign(reply.user, now)
  {
  }

  /** Login's errors: missing field (400), unknown email (401 with `userNotFound`), hash mismatch (401). */
  lemma LoginErrors(users: map<string, User>, crypto: Crypto, email: string, password: string, now: int)
    ensures email == [] || password == [] ==> LoginOutcome(users, crypto, email, password, now) == Failure(400, MissingLoginField, NoFlag)
    ensures email != [] && password != [] && email !in users ==>
              LoginOutcome(users, crypto, email, password, now) == Failure(401, NotFound, UserNotFound)
    ensures email != [] && password != [] && email in users && !crypto.compare(password, users[email].passwordHash) ==>
              LoginOutcome(users, crypto, email, password, now) == Failure(401, WrongPassword, NoFlag)
  {
  }

  /** Login depends on the store only through the record under the given email. */
  lemma LoginReadsOneRecord(users: map<string, User>, users': map<string, User>, crypto: Crypto, email: string, password: string, now: int)
    requires (email in users <==> email in users') && (email in users ==> users[email] == users'[email])
    ensures LoginOutcome(users, crypto, email, password, now) == LoginOutcome(users', crypto, email, password, now)
  {
  }

  /**
   * Round trip: after a successful signup, login with the same email and
   * password, at any later time, succeeds and returns the new account with a
   * token signed at the login time; provided `compare` accepts a password
   * against its own hash.  A login in the same second as the signup gets
   * the signup's own reply back.
   */
  lemma SignupThenLogin(users: map<string, User>, crypto: Crypto, name: string, email: string, password: string, newId: string,
                        now: int, later: int)
    requires SignupOutcome(users, crypto, name, email, password, newId, now).0.Session?
    requires crypto.compare(password, crypto.hash(password))
    ensures var (reply, users') := SignupOutcome(users, crypto, name, email, password, newId, now);
            LoginOutcome(users', crypto, email, password, later) == Session(crypto.sign(reply.user, later), reply.user)
    ensures var (reply, users') := SignupOutcome(users, crypto, name, email, password, newId, now);
            later == now ==> LoginOutcome(users', crypto, email, password, later) == reply
  {
  }

  /** `password.length` counts UTF-16 code units: three characters outside the Basic Multilingual Plane pass the length check. */
  lemma AstralPasswordLongEnough()
    ensures Utf16Length("\U{1F600}\U{1F600}\U{1F600}") == 6
  {
  }

  /** `/verify` never reads the token beyond its presence. */
  lemma VerifyIgnoresToken(token: string, token': string)
    requires token != [] && token' != []
    ensures Verify(token) == Verify(token') == Confirmed
  {
  }
}
