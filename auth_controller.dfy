/** The handlers of backend/controllers/authController.js over the user
    collection: register, login and password change. Password hashing, its
    check and token signing are black boxes handed to the store: all the model
    knows of them is that a password verifies against any hash made from it. */
module AuthController {
  import opened Wrappers
  import opened Ids

  type Email = string

  /** The random salt a hash call draws. */
  type Salt = nat

  type Token = string

  /** A stored user; `password` holds the hash, never the plaintext. */
  datatype User = User(id: UserId, username: string, email: Email, password: string, createdAt: int)

  /** The user view login sends back: there is no password field at all. */
  datatype PublicUser = PublicUser(id: UserId, username: string, email: Email, createdAt: int)

  /** The handlers' error responses (each a `message`). */
  datatype AuthError = UserExists | InvalidCredentials | PasswordsRequired | UserNotFound | WrongCurrentPassword

  /** What register responds with: the created user document as stored, and a token. */
  datatype Registered = Registered(user: User, token: Token)

  /** What login responds with. */
  datatype LoggedIn = LoggedIn(user: PublicUser, token: Token)

  /** The `message` text of each error response. */
  function Message(e: AuthError): string {
    match e
    case UserExists => "User already exists"
    case InvalidCredentials => "Invalid credentials"
    case PasswordsRequired => "Current password and new password are required"
    case UserNotFound => "User not found"
    case WrongCurrentPassword => "Current password is incorrect"
  }

  /** The HTTP status of each error response. */
  function Status(e: AuthError): (code: nat)
    ensures code == 404 <==> e == UserNotFound
    ensures code == 400 <==> e != UserNotFound
  {
    if e == UserNotFound then 404 else 400
  }

  /** Every error has its own non-empty message. */
  lemma MessagesDistinct(e1: AuthError, e2: AuthError)
    ensures Message(e1) != ""
    ensures Message(e1) == Message(e2) <==> e1 == e2
  {
  }

  /** The login response's user: identifier, username, email and creation time. */
  function Sanitize(u: User): (p: PublicUser)
    ensures p.id == u.id && p.username == u.username && p.email == u.email && p.createdAt == u.createdAt
  {
    PublicUser(u.id, u.username, u.email, u.createdAt)
  }

  /** The user collection, keyed by email, and the hashing and signing it uses. */
  class CredentialStore {
    /** `bcrypt.hash(password, 10)` with the salt it draws. */
    const hash: (string, Salt) -> string
    /** `bcrypt.compare(password, hash)`. */
    const verify: (string, string) -> bool
    /** `jwt.sign({ id }, secret)`. */
    const sign: UserId -> Token

    var users: map<Email, User>
    var nextId: UserId

    /** A password verifies against a hash of itself; every user is filed under
        its own email; identifiers are unique and below nextId. */
    ghost predicate Valid()
      reads this
    {
      && (forall p, s :: verify(p, hash(p, s)))
      && (forall e :: e in users ==> users[e].email == e && users[e].id < nextId)
      && (forall e1, e2 :: e1 in users && e2 in users && users[e1].id == users[e2].id ==> e1 == e2)
    }

    constructor (hash: (string, Salt) -> string, verify: (string, string) -> bool, sign: UserId -> Token)
      requires forall p, s :: verify(p, hash(p, s))
      ensures Valid() && users == map[]
      ensures this.hash == hash && this.verify == verify && this.sign == sign
    {
      this.hash := hash;
      this.verify := verify;
      this.sign := sign;
      users := map[];
      nextId := 0;
    }

    /** The email under which the user with identifier id is filed, if any. */
    ghost predicate HasUser(id: UserId)
      reads this
    {
      exists e :: e in users && users[e].id == id
    }

    /** register: a taken email (exact match) is refused and nothing is added;
        otherwise the user is stored with the hash of the password and a token
        signed over the new identifier comes back with the stored document.
        `now` is the creation time the user schema stamps. */
    method Register(username: string, email: Email, password: string, salt: Salt, now: int)
      returns (r: Result<Registered, AuthError>)
      requires Valid()
      modifies this`users, this`nextId
      ensures Valid()
      ensures email in old(users) ==> r == Err(UserExists) && users == old(users)
      ensures email !in old(users) ==>
        && r.Ok?
        && r.value.user == User(old(nextId), username, email, hash(password, salt), now)
        && r.value.token == sign(old(nextId))
        && users == old(users)[email := r.value.user]
        && verify(password, users[email].password)
      ensures email !in old(users) ==> forall e :: e in old(users) ==> old(users)[e].id != r.value.user.id
    {
      if email in users {
        r := Err(UserExists);
        return;
      }
      var hashed := hash(password, salt);
      var user := User(nextId, username, email, hashed, now);
      users := users[email := user];
      nextId := nextId + 1;
      r := Ok(Registered(user, sign(user.id)));
    }

    /** login: an unknown email and a wrong password give the same answer;
        success gives the sanitized user and a token over its identifier. */
    method Login(email: Email, password: string) returns (r: Result<LoggedIn, AuthError>)
      requires Valid()
      ensures r.Err? <==> email !in users || !verify(password, users[email].password)
      ensures r.Err? ==> r == Err(InvalidCredentials)
      ensures r.Ok? ==> r.value == LoggedIn(Sanitize(users[email]), sign(users[email].id))
    {
      if email !in users {
        r := Err(InvalidCredentials);
        return;
      }
      var user := users[email];
      if !verify(password, user.password) {
        r := Err(InvalidCredentials);
        return;
      }
      r := Ok(LoggedIn(Sanitize(user), sign(user.id)));
    }

    /** The refusal updatePassword gives `caller`, checked in this order: both
        passwords present, then the user found, then the current password
        matching that user's hash. None when the change goes through. */
    ghost function PasswordChangeError(caller: UserId, currentPassword: string, newPassword: string): Option<AuthError>
      reads this
    {
      if currentPassword == "" || newPassword == "" then Some(PasswordsRequired)
      else if !HasUser(caller) then Some(UserNotFound)
      else if exists e :: e in users && users[e].id == caller && verify(currentPassword, users[e].password) then None
      else Some(WrongCurrentPassword)
    }

    /** updatePassword: both passwords must be non-empty (checked before any
        lookup), the caller must exist, and the current password must verify;
        only then is that one user's hash replaced by a hash of the new password. */
    method UpdatePassword(caller: UserId, currentPassword: string, newPassword: string, salt: Salt)
      returns (r: Result<(), AuthError>)
      requires Valid()
      modifies this`users
      ensures Valid()
      ensures var err := old(PasswordChangeError(caller, currentPassword, newPassword));
        if err.Some? then r == Err(err.value) && users == old(users) else r == Ok(())
      ensures r.Ok? ==> forall e :: e in old(users) && old(users)[e].id == caller ==>
        && users == old(users)[e := old(users)[e].(password := hash(newPassword, salt))]
        && verify(newPassword, users[e].password)
    {
      if currentPassword == "" || newPassword == "" {
        r := Err(PasswordsRequired);
        return;
      }
      if !(exists e :: e in users && users[e].id == caller) {
        r := Err(UserNotFound);
        return;
      }
      var e :| e in users && users[e].id == caller;
      var user := users[e];
      if !verify(currentPassword, user.password) {
        r := Err(WrongCurrentPassword);
        return;
      }
      var hashed := hash(newPassword, salt);
      users := users[e := user.(password := hashed)];
      r := Ok(());
    }
  }

  /** Registering twice with one email fails the second time; logging in with
      the registered password succeeds and carries a token over the new user. */
  method RegisterLoginScenario(store: CredentialStore, name: string, email: Email, pw: string, s1: Salt, s2: Salt, now: int)
    requires store.Valid() && email !in store.users
    modifies store
    ensures store.Valid()
  {
    var first := store.Register(name, email, pw, s1, now);
    assert first.Ok?;
    var second := store.Register(name, email, pw, s2, now);
    assert second == Err(UserExists);
    var login := store.Login(email, pw);
    assert login.Ok? && login.value.token == store.sign(first.value.user.id);
  }

  /** After a password change the new password logs in; a wrong current
      password changes nothing. */
  method PasswordChangeScenario(store: CredentialStore, email: Email, oldPw: string, newPw: string, wrong: string, salt: Salt)
    requires store.Valid() && email in store.users && oldPw != "" && newPw != "" && wrong != ""
    requires store.verify(oldPw, store.users[email].password)
    requires !store.verify(wrong, store.users[email].password)
    modifies store
    ensures store.Valid()
  {
    var id := store.users[email].id;
    var before := store.users;
    var r := store.UpdatePassword(id, wrong, newPw, salt);
    assert r == Err(WrongCurrentPassword) && store.users == before;
    r := store.UpdatePassword(id, oldPw, newPw, salt);
    assert r == Ok(());
    var login := store.Login(email, newPw);
    assert login.Ok?;
  }
}
