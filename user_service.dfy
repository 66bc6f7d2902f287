/**
 * User administration (app/services/user_service.py). Listing, creating and
 * deleting users is reserved to administrators; a regular user may read and
 * edit only their own record, and may never change their own privileges.
 */
module Users {
  import opened Wrappers
  import opened Entities
  import opened Store
  import opened Security
  import opened Logging
  import Groups

  const UsernameTaken: string := "Username already registered"
  const EmailRegistered: string := "Email already registered"

  /**
   * The patch `update_user` applies for `currentUser`: everything the client
   * sent for an administrator, and for anyone else only the email.
   */
  function AllowedUpdate(data: UserUpdate, currentUser: User): (r: UserUpdate)
    ensures IsAdmin(currentUser) ==> r == data
    ensures !IsAdmin(currentUser) ==> r.email == data.email && r.isActive.Absent? && r.isAdmin.Absent?
  {
    if IsAdmin(currentUser) then data else UserUpdate(data.email, Absent, Absent)
  }

  /** A user row after the `setattr` loop over a patch. */
  function ApplyUserUpdate(u: User, data: UserUpdate): (r: User)
    ensures r.id == u.id && r.username == u.username && r.hashedPassword == u.hashedPassword
    ensures r.email == Patched(data.email, u.email)
    ensures r.isActive == Patched(data.isActive, u.isActive)
    ensures r.isAdmin == Patched(data.isAdmin, u.isAdmin)
  {
    u.(email := Patched(data.email, u.email),
       isActive := Patched(data.isActive, u.isActive),
       isAdmin := Patched(data.isAdmin, u.isAdmin))
  }

  /** One entry of `user_data.dict(exclude_unset=True)`. */
  datatype UserField = Email(email: Option<string>) | Active(isActive: Option<bool>) | Admin(isAdmin: Option<bool>)

  /** The fields the client sent, in the schema's order. */
  function UserItems(data: UserUpdate): (items: seq<UserField>)
    ensures |items| <= 3
  {
    (if data.email.Present? then [Email(data.email.value)] else []) +
    (if data.isActive.Present? then [Active(data.isActive.value)] else []) +
    (if data.isAdmin.Present? then [Admin(data.isAdmin.value)] else [])
  }

  /** The dict after the key-deletion loop: only the `email` entry survives. */
  function OnlyEmail(items: seq<UserField>): (r: seq<UserField>)
    ensures forall i :: 0 <= i < |r| ==> r[i].Email?
    ensures |r| <= |items|
    decreases |items|
  {
    if |items| == 0 then []
    else OnlyEmail(items[..|items| - 1]) + (if items[|items| - 1].Email? then [items[|items| - 1]] else [])
  }

  /** `for field in list(keys): if field not in allowed_fields: del user_data_dict[field]`. */
  method DropDisallowed(items: seq<UserField>) returns (kept: seq<UserField>)
    ensures kept == OnlyEmail(items)
  {
    kept := [];
    var i := 0;
    while i < |items|
      invariant 0 <= i <= |items|
      invariant kept == OnlyEmail(items[..i])
    {
      if items[i].Email? {
        kept := kept + [items[i]];
      }
      assert items[..i + 1][..i] == items[..i];
      i := i + 1;
    }
    assert items[..|items|] == items;
  }

  /** Deleting every key but `email` leaves the dict of an email-only patch. */
  lemma {:induction false} OnlyEmailOfItems(data: UserUpdate)
    ensures OnlyEmail(UserItems(data)) == UserItems(UserUpdate(data.email, Absent, Absent))
  {
    var a := if data.email.Present? then [Email(data.email.value)] else [];
    var b := if data.isActive.Present? then [Active(data.isActive.value)] else [];
    var c := if data.isAdmin.Present? then [Admin(data.isAdmin.value)] else [];
    assert UserItems(data) == a + b + c;
    assert UserItems(UserUpdate(data.email, Absent, Absent)) == a;
    assert OnlyEmail(a) == a by {
      if |a| == 1 {
        assert a[..0] == [];
      }
    }
    assert OnlyEmail(a + b) == a by {
      if |b| == 1 {
        assert (a + b)[..|a + b| - 1] == a;
      } else {
        assert a + b == a;
      }
    }
    if |c| == 1 {
      assert (a + b + c)[..|a + b + c| - 1] == a + b;
    } else {
      assert a + b + c == a + b;
    }
  }

  /** The dict `update_user` iterates: all sent fields for an administrator, else what the deletion loop keeps. */
  method AllowedItems(data: UserUpdate, currentUser: User) returns (items: seq<UserField>)
    ensures items == UserItems(AllowedUpdate(data, currentUser))
  {
    items := UserItems(data);
    if !IsAdmin(currentUser) {
      items := DropDisallowed(items);
      OnlyEmailOfItems(data);
    }
  }

  /** `setattr(user, field, value)`. */
  function SetUserField(u: User, f: UserField): (r: User)
    ensures f.Email? ==> r == u.(email := f.email)
    ensures f.Active? ==> r == u.(isActive := f.isActive)
    ensures f.Admin? ==> r == u.(isAdmin := f.isAdmin)
  {
    match f
    case Email(v) => u.(email := v)
    case Active(v) => u.(isActive := v)
    case Admin(v) => u.(isAdmin := v)
  }

  /** Setting every item of the dict sets exactly the patched columns. */
  lemma {:induction false} UserItemsApply(u: User, data: UserUpdate)
    ensures ApplyAll(u, UserItems(data), SetUserField) == ApplyUserUpdate(u, data)
  {
    var a := if data.email.Present? then [Email(data.email.value)] else [];
    var b := if data.isActive.Present? then [Active(data.isActive.value)] else [];
    var c := if data.isAdmin.Present? then [Admin(data.isAdmin.value)] else [];
    ApplyAllAppend(u, a + b, c, SetUserField);
    ApplyAllAppend(u, a, b, SetUserField);
  }

  /** The row after the `setattr` loop over the allowed dict. */
  method UpdatedRow(user: User, data: UserUpdate, currentUser: User) returns (updated: User)
    ensures updated == ApplyUserUpdate(user, AllowedUpdate(data, currentUser))
  {
    var items := AllowedItems(data, currentUser);
    updated := SetEach(user, items, SetUserField);
    UserItemsApply(user, AllowedUpdate(data, currentUser));
  }

  class UserService {
    const db: Db
    const logging: LogService
    const security: Security

    constructor (db: Db, logging: LogService, security: Security)
      requires logging.db == db
      ensures this.db == db && this.logging == logging && this.security == security
    {
      this.db := db;
      this.logging := logging;
      this.security := security;
    }

    /** `get_users`: every user, for an administrator only. */
    function GetUsers(currentUser: User): (r: Result<seq<User>, Error>)
      reads db
      requires db.Valid()
      ensures !IsAdmin(currentUser) ==> r == Err(PermissionDenied("Only administrators can view user list"))
      ensures IsAdmin(currentUser) ==> r.Ok?
      ensures r.Ok? ==> forall u :: u in r.value <==> db.IsUserRow(u)
      ensures r.Ok? ==> forall i, j :: 0 <= i < j < |r.value| ==> r.value[i].id < r.value[j].id
    {
      if !IsAdmin(currentUser) then Err(PermissionDenied("Only administrators can view user list"))
      else
        var ids := AscendingIds(db.users.Keys, db.nextUserId);
        assert db.UsersValid();
        Ok(RowsOf(db.users, ids))
    }

    /**
     * `create_user` by an administrator: the admin check, then a duplicate
     * username, then a duplicate email. The new user is active with the
     * requested admin flag, and one log "User <actor> created User <new>" is
     * tagged with both ids.
     */
    method CreateUser(data: UserCreate, currentUser: User, now: Timestamp) returns (r: Result<User, Error>)
      requires db.Valid() && logging.db == db
      requires db.IsUserRow(currentUser)
      modifies db
      ensures db.Valid()
      ensures !IsAdmin(currentUser) ==> r == Err(PermissionDenied("Only administrators can create users"))
      ensures IsAdmin(currentUser) && old(db.UserByName(data.username)).Some? ==> r == Err(Duplicate(UsernameTaken))
      ensures (IsAdmin(currentUser) && old(db.UserByName(data.username)).None? && old(db.EmailTaken(data.email))) ==>
        r == Err(Duplicate(EmailRegistered))
      ensures r.Ok? <==>
        IsAdmin(currentUser) && old(db.UserByName(data.username)).None? && !old(db.EmailTaken(data.email))
      ensures r.Err? ==> unchanged(db)
      ensures r.Ok? ==>
        && IsAdmin(currentUser)
        && old(db.UserByName(data.username)).None? && !old(db.EmailTaken(data.email))
        && r.value == User(old(db.nextUserId), data.username, Some(data.email), security.hash(data.password),
                           Some(true), Some(data.isAdmin))
        && db.users == old(db.users)[r.value.id := r.value]
        && db.nextUserId == old(db.nextUserId) + 1
        && var log := Log(old(db.nextLogId), now,
                          "User " + NatToString(currentUser.id) + " created User " + NatToString(r.value.id));
           && db.logs == old(db.logs)[log.id := log]
           && db.nextLogId == old(db.nextLogId) + 1
           && db.associations == old(db.associations) +
                {LogAssociation(log.id, currentUser.id, "user"), LogAssociation(log.id, r.value.id, "user")}
      ensures unchanged(db`groups, db`members, db`passwords)
      ensures unchanged(db`nextGroupId, db`nextPasswordId)
    {
      if !IsAdmin(currentUser) {
        return Err(PermissionDenied("Only administrators can create users"));
      }
      if db.UserByName(data.username).Some? {
        return Err(Duplicate(UsernameTaken));
      }
      if db.EmailTaken(data.email) {
        return Err(Duplicate(EmailRegistered));
      }
      var user := User(db.nextUserId, data.username, Some(data.email), security.hash(data.password),
                       Some(true), Some(data.isAdmin));
      assert db.UsersValid();
      db.InsertUser(user);
      var log := logging.CreateLog("User " + NatToString(currentUser.id) + " created User " + NatToString(user.id), now);
      assert db.LogsValid();
      var first := logging.CreateAssociation(log, currentUser.id, "user");
      var second := logging.CreateAssociation(log, user.id, "user");
      r := Ok(user);
    }

    /** `get_user`: NotFound first; then the record only for an administrator or its owner. */
    function GetUser(userId: int, currentUser: User): (r: Result<User, Error>)
      reads db
      ensures userId !in db.users ==> r == Err(NotFound(Groups.UserNotFound))
      ensures userId in db.users && !IsAdmin(currentUser) && currentUser.id != userId ==>
        r == Err(PermissionDenied("You can only view your own user details"))
      ensures r.Ok? <==> userId in db.users && (IsAdmin(currentUser) || currentUser.id == userId)
      ensures r.Ok? ==> r.value == db.users[userId]
    {
      if userId !in db.users then Err(NotFound(Groups.UserNotFound))
      else if !IsAdmin(currentUser) && currentUser.id != userId then
        Err(PermissionDenied("You can only view your own user details"))
      else Ok(db.users[userId])
    }

    /**
     * `update_password`: NotFound, then self-only (administrators included),
     * then the current password must verify; only the hash changes, and the
     * new password then verifies against it.
     */
    method UpdatePassword(userId: int, currentPassword: string, newPassword: string, currentUser: User)
      returns (r: Result<User, Error>)
      requires db.Valid()
      modifies db
      ensures db.Valid()
      ensures userId !in old(db.users) ==> r == Err(NotFound(Groups.UserNotFound))
      ensures userId in old(db.users) && currentUser.id != userId ==>
        r == Err(PermissionDenied("You can only change your own password"))
      ensures (userId in old(db.users) && currentUser.id == userId &&
               !security.verifyPassword(currentPassword, old(db.users)[userId].hashedPassword)) ==>
        r == Err(PermissionDenied("Current password is incorrect"))
      ensures r.Ok? <==>
        userId in old(db.users) && currentUser.id == userId &&
        security.verifyPassword(currentPassword, old(db.users)[userId].hashedPassword)
      ensures r.Err? ==> unchanged(db)
      ensures r.Ok? ==>
        && userId in old(db.users) && currentUser.id == userId
        && security.verifyPassword(currentPassword, old(db.users)[userId].hashedPassword)
        && r.value == old(db.users)[userId].(hashedPassword := security.hash(newPassword))
        && db.users == old(db.users)[userId := r.value]
      ensures r.Ok? && HashSound(security) ==> security.verifyPassword(newPassword, r.value.hashedPassword)
      ensures unchanged(db`groups, db`members, db`passwords, db`logs, db`associations)
      ensures unchanged(db`nextUserId, db`nextGroupId, db`nextPasswordId, db`nextLogId)
    {
      if userId !in db.users {
        return Err(NotFound(Groups.UserNotFound));
      }
      var user := db.users[userId];
      if currentUser.id != userId {
        return Err(PermissionDenied("You can only change your own password"));
      }
      if !security.verifyPassword(currentPassword, user.hashedPassword) {
        return Err(PermissionDenied("Current password is incorrect"));
      }
      var updated := user.(hashedPassword := security.hash(newPassword));
      assert db.UsersValid();
      db.ReplaceUser(updated);
      r := Ok(updated);
    }

    /**
     * `update_user`: NotFound; a non-administrator may update only themselves,
     * and only the email they sent is applied. An email already held by
     * another user is rejected by the unique constraint and nothing changes.
     */
    method UpdateUser(userId: int, data: UserUpdate, currentUser: User) returns (r: Result<User, Error>)
      requires db.Valid()
      modifies db
      ensures db.Valid()
      ensures userId !in old(db.users) ==> r == Err(NotFound(Groups.UserNotFound))
      ensures userId in old(db.users) && !IsAdmin(currentUser) && currentUser.id != userId ==>
        r == Err(PermissionDenied("You can only update your own user details"))
      ensures (userId in old(db.users) && (IsAdmin(currentUser) || currentUser.id == userId) &&
               old(db.EmailClash(userId, ApplyUserUpdate(db.users[userId], AllowedUpdate(data, currentUser)).email))) ==>
        r.Err? && r.error.Integrity?
      ensures r.Ok? <==>
        && userId in old(db.users)
        && (IsAdmin(currentUser) || currentUser.id == userId)
        && !old(db.EmailClash(userId, ApplyUserUpdate(db.users[userId], AllowedUpdate(data, currentUser)).email))
      ensures r.Err? ==> unchanged(db)
      ensures r.Ok? ==>
        && userId in old(db.users)
        && (IsAdmin(currentUser) || currentUser.id == userId)
        && r.value == ApplyUserUpdate(old(db.users)[userId], AllowedUpdate(data, currentUser))
        && db.users == old(db.users)[userId := r.value]
      ensures r.Ok? && !IsAdmin(currentUser) ==>
        r.value.isAdmin == old(db.users)[userId].isAdmin && r.value.isActive == old(db.users)[userId].isActive
      ensures unchanged(db`groups, db`members, db`passwords, db`logs, db`associations)
      ensures unchanged(db`nextUserId, db`nextGroupId, db`nextPasswordId, db`nextLogId)
    {
      if userId !in db.users {
        return Err(NotFound(Groups.UserNotFound));
      }
      var user := db.users[userId];
      if !IsAdmin(currentUser) && currentUser.id != userId {
        return Err(PermissionDenied("You can only update your own user details"));
      }
      var updated := UpdatedRow(user, data, currentUser);
      if db.EmailClash(userId, updated.email) {
        return Err(Integrity("duplicate key value violates unique constraint \"ix_users_email\""));
      }
      db.ReplaceUser(updated);
      r := Ok(updated);
    }

    /**
     * `delete_user`: the admin check precedes the lookup. The user's
     * memberships go with the row, and groups they owned are left without an
     * owner.
     */
    method DeleteUser(userId: int, currentUser: User) returns (r: Result<(), Error>)
      requires db.Valid()
      modifies db
      ensures db.Valid()
      ensures !IsAdmin(currentUser) ==> r == Err(PermissionDenied("Only administrators can delete users"))
      ensures IsAdmin(currentUser) && userId !in old(db.users) ==> r == Err(NotFound(Groups.UserNotFound))
      ensures r.Ok? <==> IsAdmin(currentUser) && userId in old(db.users)
      ensures r.Err? ==> unchanged(db)
      ensures r.Ok? ==>
        && IsAdmin(currentUser) && userId in old(db.users)
        && db.users == old(db.users) - {userId}
        && db.members == set p | p in old(db.members) && p.0 != userId
        && db.groups.Keys == old(db.groups).Keys
        && (forall g :: g in db.groups ==>
              db.groups[g] == if old(db.groups)[g].ownerId == Some(userId) then old(db.groups)[g].(ownerId := None)
                              else old(db.groups)[g])
      ensures r.Ok? ==> forall g :: !db.IsMember(userId, g)
      ensures unchanged(db`passwords, db`logs, db`associations)
      ensures unchanged(db`nextUserId, db`nextGroupId, db`nextPasswordId, db`nextLogId)
    {
      if !IsAdmin(currentUser) {
        return Err(PermissionDenied("Only administrators can delete users"));
      }
      if userId !in db.users {
        return Err(NotFound(Groups.UserNotFound));
      }
      db.DeleteUserRow(userId);
      r := Ok(());
    }

    /** A row the list of `get_available_users` keeps: an active user outside the group. */
    predicate Available(u: User, groupId: int)
      reads db
    {
      db.IsUserRow(u) && u.isActive == Some(true) && !db.IsMember(u.id, groupId)
    }

    /**
     * `get_available_users`: NotFound for a missing group, then owner-only;
     * exactly the active users who are not members, which never includes the
     * owner.
     */
    function GetAvailableUsers(groupId: int, currentUser: User): (r: Result<seq<User>, Error>)
      reads db
      requires db.Valid()
      ensures groupId !in db.groups ==> r == Err(NotFound(Groups.GroupNotFound))
      ensures groupId in db.groups && db.groups[groupId].ownerId != Some(currentUser.id) ==>
        r == Err(PermissionDenied("Only group owner can view available users"))
      ensures r.Ok? <==> groupId in db.groups && db.groups[groupId].ownerId == Some(currentUser.id)
      ensures r.Ok? ==> forall u :: u in r.value <==> Available(u, groupId)
      ensures r.Ok? ==> forall i, j :: 0 <= i < j < |r.value| ==> r.value[i].id < r.value[j].id
      ensures r.Ok? ==> forall i :: 0 <= i < |r.value| ==> r.value[i].id != currentUser.id
    {
      if groupId !in db.groups then Err(NotFound(Groups.GroupNotFound))
      else if db.groups[groupId].ownerId != Some(currentUser.id) then
        Err(PermissionDenied("Only group owner can view available users"))
      else
        var keep := set k | k in db.users && db.users[k].isActive == Some(true) && !db.IsMember(k, groupId);
        var ids := AscendingIds(keep, db.nextUserId);
        var rows := RowsOf(db.users, ids);
        assert db.UsersValid() && db.GroupsValid();
        assert forall k :: k in keep ==> k in ids && db.users[k] in rows;
        Ok(rows)
    }
  }
}
