/**
 * Sign-up, login and token resolution (app/services/auth_service.py).
 */
module Auth {
  import opened Wrappers
  import opened Entities
  import opened Store
  import opened Security
  import opened Logging
  import Users

  const InvalidCredentials: string := "Invalid username or password"
  const InvalidToken: string := "Invalid token"

  class AuthService {
    const db: Db
    const logging: LogService
    const security: Security

    constructor (db: Db, logging: LogService, security: Security)
      requires logging.db == db
      ensures this.db == db && this.logging == logging && this.security == security
    {
      this.db := db;
      this.logging := logging;
      this.security := security;
    }

    /**
     * `create_access_token`: a bearer token for `subject` that expires
     * thirty minutes after `now` (seconds); a sound token scheme reads the
     * subject back from it.
     */
    function CreateAccessToken(subject: string, now: int): (t: Token)
      ensures t.tokenType == "bearer"
      ensures t.accessToken == security.encodeToken(subject, now + AccessTokenExpireMinutes * 60)
      ensures TokenSound(security) ==> security.decodeToken(t.accessToken) == Some(subject)
    {
      Token(security.encodeToken(subject, now + AccessTokenExpireMinutes * 60), "bearer")
    }

    /**
     * `get_current_user`: the user named by the token's subject. A token
     * without a (non-empty) subject and a subject naming nobody both fail
     * with an authentication error.
     */
    function GetCurrentUser(token: string): (r: Result<User, Error>)
      reads db
      requires db.Valid()
      ensures (security.decodeToken(token).None? || security.decodeToken(token) == Some("")) ==>
        r == Err(Authentication(InvalidToken))
      ensures (security.decodeToken(token).Some? && security.decodeToken(token).value != "" &&
               forall k :: k in db.users ==> db.users[k].username != security.decodeToken(token).value) ==>
        r == Err(Authentication("User not found"))
      ensures r.Ok? ==> db.IsUserRow(r.value) && security.decodeToken(token) == Some(r.value.username)
      ensures r.Ok? <==> security.decodeToken(token).Some? && security.decodeToken(token).value != "" &&
                         exists k :: k in db.users && db.users[k].username == security.decodeToken(token).value
      ensures r.Err? ==> r.error.Authentication?
    {
      match security.decodeToken(token)
      case None => Err(Authentication(InvalidToken))
      case Some(username) =>
        if username == "" then Err(Authentication(InvalidToken))
        else
          match db.UserByName(username)
          case None => Err(Authentication("User not found"))
          case Some(user) => Ok(user)
    }

    /**
     * `authenticate_user`: succeeds exactly for a known username whose stored
     * hash accepts the password, and fails with one message whether the
     * username or the password was wrong.
     */
    function AuthenticateUser(username: string, password: string): (r: Result<User, Error>)
      reads db
      requires db.Valid()
      ensures r.Ok? <==>
        db.UserByName(username).Some? && security.verifyPassword(password, db.UserByName(username).value.hashedPassword)
      ensures r.Ok? ==> db.IsUserRow(r.value) && r.value.username == username
      ensures r.Err? ==> r == Err(Authentication(InvalidCredentials))
    {
      match db.UserByName(username)
      case None => Err(Authentication(InvalidCredentials))
      case Some(user) =>
        if !security.verifyPassword(password, user.hashedPassword) then Err(Authentication(InvalidCredentials))
        else Ok(user)
    }

    /**
     * `create_user` (self-registration): a duplicate username is reported
     * before a duplicate email. The new user is active and not an
     * administrator, one log "Created User <id>" is tagged with the new id,
     * and with a sound hash the new user can log in with their password.
     */
    method CreateUser(data: UserCreate, now: Timestamp) returns (r: Result<User, Error>)
      requires db.Valid() && logging.db == db
      modifies db
      ensures db.Valid()
      ensures old(db.UserByName(data.username)).Some? ==> r == Err(Duplicate(Users.UsernameTaken))
      ensures old(db.UserByName(data.username)).None? && old(db.EmailTaken(data.email)) ==>
        r == Err(Duplicate(Users.EmailRegistered))
      ensures r.Ok? <==> old(db.UserByName(data.username)).None? && !old(db.EmailTaken(data.email))
      ensures r.Err? ==> unchanged(db)
      ensures r.Ok? ==>
        && old(db.UserByName(data.username)).None? && !old(db.EmailTaken(data.email))
        && r.value == User(old(db.nextUserId), data.username, Some(data.email), security.hash(data.password),
                           Some(true), Some(false))
        && r.value.id !in old(db.users)
        && db.users == old(db.users)[r.value.id := r.value]
        && db.nextUserId == old(db.nextUserId) + 1
        && var log := Log(old(db.nextLogId), now, "Created User " + NatToString(r.value.id));
           && db.logs == old(db.logs)[log.id := log]
           && db.nextLogId == old(db.nextLogId) + 1
           && db.associations == old(db.associations) + {LogAssociation(log.id, r.value.id, "user")}
      ensures r.Ok? && HashSound(security) ==> AuthenticateUser(data.username, data.password) == Ok(r.value)
      ensures unchanged(db`groups, db`members, db`passwords)
      ensures unchanged(db`nextGroupId, db`nextPasswordId)
    {
      if db.UserByName(data.username).Some? {
        return Err(Duplicate(Users.UsernameTaken));
      }
      if db.EmailTaken(data.email) {
        return Err(Duplicate(Users.EmailRegistered));
      }
      var user := User(db.nextUserId, data.username, Some(data.email), security.hash(data.password),
                       Some(true), Some(false));
      db.InsertUser(user);
      var log := logging.CreateLog("Created User " + NatToString(user.id), now);
      assert db.LogsValid();
      var tag := logging.CreateAssociation(log, user.id, "user");
      r := Ok(user);
      db.UserByNameFindsRow(user);
    }
  }

  /**
   * Logging in and resolving the issued token lead back to the same user:
   * under a sound token scheme, the token made for a stored user's
   * (non-empty) name resolves to that user.
   */
  lemma TokenResolvesToUser(svc: AuthService, user: User, now: int)
    requires svc.db.Valid() && svc.db.IsUserRow(user) && user.username != ""
    requires TokenSound(svc.security)
    ensures svc.GetCurrentUser(svc.CreateAccessToken(user.username, now).accessToken) == Ok(user)
  {
    svc.db.UserByNameFindsRow(user);
  }
}
