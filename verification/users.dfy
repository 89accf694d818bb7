/** The user controller: registration, login, logout and refresh-token
    rotation as guarded transitions of the user collection.

    bcrypt is the uninterpreted `hash`; `jwt.sign` is replaced by the tokens
    issued for the request (`Issued`), since they depend on the clock and on
    secrets read from the environment. */
module UserController {
  import opened Common
  import opened Schema
  import opened Store

  /** A user as returned by `select("-password -refreshToken")`. */
  datatype PublicUser = PublicUser(id: Id, username: string, role: Role)

  function Public(u: User): PublicUser {
    PublicUser(u.id, u.username, u.role)
  }

  /** The two tokens `generateAccessToken` / `generateRefreshToken` sign. */
  datatype Issued = Issued(accessToken: string, refreshToken: string)

  /** The body of a successful login or refresh. */
  datatype Session = Session(user: PublicUser, accessToken: string, refreshToken: string)

  const MissingCredentials: string := "Please provide a username and password"
  const UsernameTaken: string := "Username already exists"
  const InvalidCredentials: string := "Invalid credentials"
  const Unauthorized: string := "Unauthorized"

  /** `findOne({ refreshToken })` compares the stored token; a user without
      one never matches a non-empty token, which is the only kind searched. */
  function StoredRefreshToken(u: User): Id {
    match u.refreshToken
    case Some(t) => t
    case None => ""
  }

  /** The role a new account receives. */
  function RoleFor(username: string, adminUsername: Option<string>): (r: Role)
    ensures r == AdminRole <==> adminUsername == Some(username)
  {
    if adminUsername == Some(username) then AdminRole else UserRole
  }

  function Register(db: Db, adminUsername: Option<string>, username: string, password: string,
                    hash: string -> string): (r: Step<PublicUser>)
    ensures username == "" || password == "" ==> r == Step(db, ApiError(400, MissingCredentials))
    ensures username != "" && password != "" && Has(db.users, Username, username) ==>
              r == Step(db, ApiError(400, UsernameTaken))
    ensures (username != "" && password != "" && !Has(db.users, Username, username)
             && !UserFieldsValid(username, password)) ==> r == Step(db, ValidationFailed)
    ensures r.out.Done? <==> UserFieldsValid(username, password) && !Has(db.users, Username, username)
    ensures !r.out.Done? ==> r.db == db
    ensures r.out.Done? ==>
              && r.out.status == 201
              && r.db.companies == db.companies && r.db.questions == db.questions
              && |r.db.users| == |db.users| + 1
              && r.db.users[..|db.users|] == db.users
              && var u := r.db.users[|db.users|];
              && !Has(db.users, UserId, u.id)
              && u.username == username && u.password == hash(password)
              && u.refreshToken == None
              && (u.role == AdminRole <==> adminUsername == Some(username))
              && r.out.body == Public(u)
  {
    if username == "" || password == "" then Step(db, ApiError(400, MissingCredentials))
    else if Has(db.users, Username, username) then Step(db, ApiError(400, UsernameTaken))
    else if !UserFieldsValid(username, password) then Step(db, ValidationFailed)
    else
      var id := FreshId(Ids(db.users, UserId));
      FreshIdUnused(db.users, UserId);
      var u := PreSave(NewUser(id, username, password, RoleFor(username, adminUsername)), true, hash);
      assert (db.users + [u])[..|db.users|] == db.users;
      Step(db.(users := db.users + [u]), Done(201, Public(u)))
  }

  function Login(db: Db, username: string, password: string, hash: string -> string,
                 issued: Issued): (r: Step<Session>)
    ensures username == "" || password == "" ==> r == Step(db, ApiError(400, MissingCredentials))
    ensures r.out.Done? <==>
              && username != "" && password != ""
              && var k := FindIndex(db.users, Username, username);
              && k != -1 && PasswordMatches(password, db.users[k].password, hash)
    ensures !r.out.Done? ==> r.db == db
    ensures username != "" && password != "" && !r.out.Done? ==> r == Step(db, ApiError(401, InvalidCredentials))
    ensures r.out.Done? ==>
              var k := FindIndex(db.users, Username, username);
              && r.out.status == 200
              && r.out.body.accessToken == issued.accessToken
              && r.out.body.refreshToken == issued.refreshToken
              && r.out.body.user == Public(db.users[k])
              && r.db == db.(users := db.users[k := db.users[k].(refreshToken := Some(issued.refreshToken))])
  {
    if username == "" || password == "" then Step(db, ApiError(400, MissingCredentials))
    else
      var k := FindIndex(db.users, Username, username);
      if k == -1 then Step(db, ApiError(401, InvalidCredentials))
      else if !PasswordMatches(password, db.users[k].password, hash) then
        Step(db, ApiError(401, InvalidCredentials))
      else
        var u := PreSave(db.users[k].(refreshToken := Some(issued.refreshToken)), false, hash);
        Step(db.(users := db.users[k := u]),
             Done(200, Session(Public(u), issued.accessToken, issued.refreshToken)))
  }

  /** `req.user` is set by an authentication middleware that is not part of
      this model; it is a stored user. */
  function Logout(db: Db, userId: Id, hash: string -> string): (r: Step<()>)
    requires Has(db.users, UserId, userId)
    ensures r.out == Done(200, ())
    ensures var k := FindIndex(db.users, UserId, userId);
            r.db == db.(users := db.users[k := db.users[k].(refreshToken := None)])
  {
    var k := FindIndex(db.users, UserId, userId);
    var u := PreSave(db.users[k].(refreshToken := None), false, hash);
    Step(db.(users := db.users[k := u]), Done(200, ()))
  }

  /** The token is looked up in the database only; the JWT itself is
      neither verified nor decoded. */
  function RefreshToken(db: Db, cookie: Option<string>, hash: string -> string,
                        issued: Issued): (r: Step<Session>)
    ensures cookie.None? || cookie == Some("") ==> r == Step(db, ApiError(401, Unauthorized))
    ensures r.out.Done? <==>
              cookie.Some? && cookie.value != "" && Has(db.users, StoredRefreshToken, cookie.value)
    ensures !r.out.Done? ==> r.db == db && r.out == ApiError(401, Unauthorized)
    ensures r.out.Done? ==>
              var k := FindIndex(db.users, StoredRefreshToken, cookie.value);
              && db.users[k].refreshToken == cookie
              && r.out.status == 200
              && r.out.body.accessToken == issued.accessToken
              && r.out.body.refreshToken == issued.refreshToken
              && r.out.body.user == Public(db.users[k])
              && r.db == db.(users := db.users[k := db.users[k].(refreshToken := Some(issued.refreshToken))])
  {
    if cookie.None? || cookie.value == "" then Step(db, ApiError(401, Unauthorized))
    else
      var k := FindIndex(db.users, StoredRefreshToken, cookie.value);
      if k == -1 then Step(db, ApiError(401, Unauthorized))
      else
        var u := PreSave(db.users[k].(refreshToken := Some(issued.refreshToken)), false, hash);
        Step(db.(users := db.users[k := u]),
             Done(200, Session(Public(u), issued.accessToken, issued.refreshToken)))
  }

  // --------------------------------------------------------------- lemmas

  /** Changing one user without touching ids or usernames keeps the store
      valid. */
  lemma UpdateUserKeepsValid(db: Db, k: int, u: User)
    requires Valid(db) && 0 <= k < |db.users|
    requires u.id == db.users[k].id && u.username == db.users[k].username
    ensures Valid(db.(users := db.users[k := u]))
  {
    var us := db.users[k := u];
    assert forall i :: 0 <= i < |us| ==> UserId(us[i]) == UserId(db.users[i]);
    assert forall i :: 0 <= i < |us| ==> Username(us[i]) == Username(db.users[i]);
  }

  /** Registration keeps ids and usernames unique. */
  lemma RegisterPreservesValid(db: Db, adminUsername: Option<string>, username: string,
                               password: string, hash: string -> string)
    requires Valid(db)
    ensures Valid(Register(db, adminUsername, username, password, hash).db)
  {
    var r := Register(db, adminUsername, username, password, hash);
    if r.out.Done? {
      var u := r.db.users[|db.users|];
      assert r.db.users == db.users + [u];
      AppendKeepsUnique(db.users, UserId, u);
      AppendKeepsUnique(db.users, Username, u);
    }
  }

  lemma LoginPreservesValid(db: Db, username: string, password: string, hash: string -> string,
                            issued: Issued)
    requires Valid(db)
    ensures Valid(Login(db, username, password, hash, issued).db)
  {
    var r := Login(db, username, password, hash, issued);
    if r.out.Done? {
      var k := FindIndex(db.users, Username, username);
      UpdateUserKeepsValid(db, k, r.db.users[k]);
    }
  }

  lemma RefreshPreservesValid(db: Db, cookie: Option<string>, hash: string -> string, issued: Issued)
    requires Valid(db)
    ensures Valid(RefreshToken(db, cookie, hash, issued).db)
  {
    var r := RefreshToken(db, cookie, hash, issued);
    if r.out.Done? {
      var k := FindIndex(db.users, StoredRefreshToken, cookie.value);
      UpdateUserKeepsValid(db, k, r.db.users[k]);
    }
  }

  /** A freshly registered account can log in with the password it was
      registered with, and receives the configured role. */
  lemma RegisterThenLogin(db: Db, adminUsername: Option<string>, username: string, password: string,
                          hash: string -> string, issued: Issued)
    requires Register(db, adminUsername, username, password, hash).out.Done?
    ensures var db' := Register(db, adminUsername, username, password, hash).db;
            && Login(db', username, password, hash, issued).out.Done?
            && Login(db', username, password, hash, issued).out.body.user.role
               == RoleFor(username, adminUsername)
  {
    var db' := Register(db, adminUsername, username, password, hash).db;
    var n := |db.users|;
    var k := FindIndex(db'.users, Username, username);
    assert Username(db'.users[n]) == username;
    assert forall i :: 0 <= i < n ==> db'.users[i] == db.users[i];
    assert k == n;
  }

  /** The stored hash survives a login, so the same password logs in again,
      as often as it is presented. */
  lemma SecondLoginSucceeds(db: Db, username: string, password: string, hash: string -> string,
                            first: Issued, second: Issued)
    requires Login(db, username, password, hash, first).out.Done?
    ensures var db' := Login(db, username, password, hash, first).db;
            && Login(db', username, password, hash, second).out.Done?
            && Login(db', username, password, hash, second).out.body.user
               == Login(db, username, password, hash, first).out.body.user
  {
    var db' := Login(db, username, password, hash, first).db;
    var k := FindIndex(db.users, Username, username);
    assert forall i :: 0 <= i < |db.users| ==> Username(db'.users[i]) == Username(db.users[i]);
    assert FindIndex(db'.users, Username, username) == k;
  }

  lemma LogoutPreservesValid(db: Db, userId: Id, hash: string -> string)
    requires Valid(db) && Has(db.users, UserId, userId)
    ensures Valid(Logout(db, userId, hash).db)
  {
    var k := FindIndex(db.users, UserId, userId);
    UpdateUserKeepsValid(db, k, db.users[k].(refreshToken := None));
  }

  /** After a logout the refresh token the user held is refused, provided no
      other user holds it. */
  lemma LogoutRevokesRefreshToken(db: Db, userId: Id, t: string, hash: string -> string, issued: Issued)
    requires Has(db.users, UserId, userId)
    requires forall i :: 0 <= i < |db.users| && i != FindIndex(db.users, UserId, userId) ==>
               StoredRefreshToken(db.users[i]) != t
    ensures var db' := Logout(db, userId, hash).db;
            RefreshToken(db', Some(t), hash, issued) == Step(db', ApiError(401, Unauthorized))
  {
    var db' := Logout(db, userId, hash).db;
    var k := FindIndex(db.users, UserId, userId);
    if t != "" {
      forall i | 0 <= i < |db'.users| ensures StoredRefreshToken(db'.users[i]) != t {
        if i == k {
          assert StoredRefreshToken(db'.users[k]) == "";
        }
      }
    }
  }

  /** Rotation: once a refresh has replaced token `t` by a different one,
      and no other user held `t`, presenting `t` again is refused. */
  lemma RefreshRotates(db: Db, t: string, hash: string -> string, first: Issued, second: Issued)
    requires RefreshToken(db, Some(t), hash, first).out.Done?
    requires first.refreshToken != t
    requires forall i, j :: 0 <= i < j < |db.users| ==>
               StoredRefreshToken(db.users[i]) != t || StoredRefreshToken(db.users[j]) != t
    ensures var db' := RefreshToken(db, Some(t), hash, first).db;
            RefreshToken(db', Some(t), hash, second) == Step(db', ApiError(401, Unauthorized))
  {
    var db' := RefreshToken(db, Some(t), hash, first).db;
    var k := FindIndex(db.users, StoredRefreshToken, t);
    forall i | 0 <= i < |db'.users| ensures StoredRefreshToken(db'.users[i]) != t {
      if i != k {
        if i < k {
          assert StoredRefreshToken(db.users[i]) != t;
        } else {
          assert StoredRefreshToken(db.users[k]) == t;
        }
      }
    }
  }
}
