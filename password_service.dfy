/**
 * The credential store (app/services/password_service.py). Every operation is
 * gated on membership of the entry's group; secrets are encrypted on write and
 * decrypted only when a single entry is read.
 */
module Passwords {
  import opened Wrappers
  import opened Entities
  import opened Store
  import opened Encryption
  import Groups

  const PasswordNotFound: string := "Password not found"
  const NoGroupAccess: string := "You don't have access to this group"

  /**
   * The value `get_password` returns: a fresh, unsaved entry whose
   * encrypted_password field holds the plaintext. Its timestamps are not
   * copied, so they are unset.
   */
  function PlainCopy(row: Password, plaintext: string): (c: Password)
    ensures c.id == row.id && c.groupId == row.groupId
    ensures c.title == row.title && c.username == row.username && c.url == row.url && c.notes == row.notes
    ensures c.encryptedPassword == plaintext
    ensures c.createdAt.None? && c.updatedAt.None?
  {
    row.(encryptedPassword := plaintext, createdAt := None, updatedAt := None)
  }

  /**
   * An entry after `update_password` has set the patch's fields, with
   * `encrypted` the blob it now holds. The database stamps updated_at only
   * when some column actually changed.
   */
  function PatchedEntry(row: Password, data: PasswordUpdate, encrypted: string, now: Timestamp): (r: Password)
    ensures r.id == row.id && r.groupId == row.groupId && r.createdAt == row.createdAt
    ensures r.title == Patched(data.title, row.title) && r.username == Patched(data.username, row.username)
    ensures r.url == Patched(data.url, row.url) && r.notes == Patched(data.notes, row.notes)
    ensures r.encryptedPassword == encrypted
    ensures r.updatedAt == row.updatedAt || r.updatedAt == Some(now)
    ensures r.(updatedAt := row.updatedAt) == row ==> r == row
    ensures r.(updatedAt := row.updatedAt) != row ==> r.updatedAt == Some(now)
  {
    var changed := row.(title := Patched(data.title, row.title),
                        username := Patched(data.username, row.username),
                        encryptedPassword := encrypted,
                        url := Patched(data.url, row.url),
                        notes := Patched(data.notes, row.notes));
    if changed == row then row else changed.(updatedAt := Some(now))
  }

  /** One entry of the update dict once the plaintext has been swapped for its ciphertext. */
  datatype PasswordField =
    | Title(title: Option<string>)
    | Username(username: Option<string>)
    | Url(url: Option<string>)
    | Notes(notes: Option<string>)
    | EncryptedPassword(blob: string)

  /**
   * `update_data` as `update_password` iterates it: the fields the client
   * sent in the schema's order, with the popped `password` re-inserted last
   * as `encrypted_password` (present exactly when a secret was sent).
   */
  function UpdateItems(data: PasswordUpdate, encrypted: Option<string>): (items: seq<PasswordField>)
    ensures |items| <= 5
    ensures encrypted.Some? <==> exists i :: 0 <= i < |items| && items[i].EncryptedPassword?
  {
    var head := (if data.title.Present? then [Title(data.title.value)] else []) +
                (if data.username.Present? then [Username(data.username.value)] else []) +
                (if data.url.Present? then [Url(data.url.value)] else []) +
                (if data.notes.Present? then [Notes(data.notes.value)] else []);
    assert forall i :: 0 <= i < |head| ==> !head[i].EncryptedPassword?;
    var items := head + (if encrypted.Some? then [EncryptedPassword(encrypted.value)] else []);
    assert encrypted.Some? ==> items[|items| - 1].EncryptedPassword?;
    items
  }

  /** `setattr(password, field, value)`. */
  function SetPasswordField(p: Password, f: PasswordField): (r: Password)
    ensures f.Title? ==> r == p.(title := f.title)
    ensures f.Username? ==> r == p.(username := f.username)
    ensures f.Url? ==> r == p.(url := f.url)
    ensures f.Notes? ==> r == p.(notes := f.notes)
    ensures f.EncryptedPassword? ==> r == p.(encryptedPassword := f.blob)
  {
    match f
    case Title(v) => p.(title := v)
    case Username(v) => p.(username := v)
    case Url(v) => p.(url := v)
    case Notes(v) => p.(notes := v)
    case EncryptedPassword(v) => p.(encryptedPassword := v)
  }

  /** Setting every item sets exactly the patched columns, and the blob only when a secret was sent. */
  lemma {:induction false} UpdateItemsApply(row: Password, data: PasswordUpdate, encrypted: Option<string>)
    ensures ApplyAll(row, UpdateItems(data, encrypted), SetPasswordField) ==
      row.(title := Patched(data.title, row.title),
           username := Patched(data.username, row.username),
           encryptedPassword := if encrypted.Some? then encrypted.value else row.encryptedPassword,
           url := Patched(data.url, row.url),
           notes := Patched(data.notes, row.notes))
  {
    var a := if data.title.Present? then [Title(data.title.value)] else [];
    var b := if data.username.Present? then [Username(data.username.value)] else [];
    var c := if data.url.Present? then [Url(data.url.value)] else [];
    var d := if data.notes.Present? then [Notes(data.notes.value)] else [];
    var e := if encrypted.Some? then [EncryptedPassword(encrypted.value)] else [];
    assert UpdateItems(data, encrypted) == a + b + c + d + e;
    var r1 := ApplyAll(row, a, SetPasswordField);
    assert r1 == row.(title := Patched(data.title, row.title));
    ApplyAllAppend(row, a, b, SetPasswordField);
    var r2 := ApplyAll(row, a + b, SetPasswordField);
    assert r2 == r1.(username := Patched(data.username, row.username));
    ApplyAllAppend(row, a + b, c, SetPasswordField);
    var r3 := ApplyAll(row, a + b + c, SetPasswordField);
    assert r3 == r2.(url := Patched(data.url, row.url));
    ApplyAllAppend(row, a + b + c, d, SetPasswordField);
    var r4 := ApplyAll(row, a + b + c + d, SetPasswordField);
    assert r4 == r3.(notes := Patched(data.notes, row.notes));
    ApplyAllAppend(row, a + b + c + d, e, SetPasswordField);
  }

  /**
   * The `setattr` loop of `update_password`, then the commit: the onupdate
   * column is stamped only when the UPDATE changes something.
   */
  method UpdatedEntry(row: Password, data: PasswordUpdate, encrypted: Option<string>, now: Timestamp)
    returns (updated: Password)
    ensures updated == PatchedEntry(row, data, if encrypted.Some? then encrypted.value else row.encryptedPassword, now)
  {
    var changed := SetEach(row, UpdateItems(data, encrypted), SetPasswordField);
    UpdateItemsApply(row, data, encrypted);
    updated := if changed == row then row else changed.(updatedAt := Some(now));
  }

  /** A patch that carries only a new secret leaves every displayed field as it was. */
  lemma SecretOnlyPatchKeepsFields(row: Password, secret: Option<string>, encrypted: string, now: Timestamp)
    ensures var r := PatchedEntry(row, PasswordUpdate(Absent, Absent, Present(secret), Absent, Absent), encrypted, now);
      && r.title == row.title && r.username == row.username && r.url == row.url && r.notes == row.notes
      && r.encryptedPassword == encrypted
  {
  }

  class PasswordService {
    const db: Db
    const encryption: EncryptionService

    constructor (db: Db, encryption: EncryptionService)
      ensures this.db == db && this.encryption == encryption
    {
      this.db := db;
      this.encryption := encryption;
    }

    /**
     * `_verify_group_access`: the join of groups and members finds a row only
     * for an existing group the user belongs to. A missing group is reported
     * as PermissionDenied too; this check never reports NotFound.
     */
    function VerifyGroupAccess(groupId: int, user: User): (r: Result<Group, Error>)
      reads db
      ensures r.Ok? <==> groupId in db.groups && db.IsMember(user.id, groupId)
      ensures r.Ok? ==> r.value == db.groups[groupId]
      ensures r.Err? ==> r.error == PermissionDenied(NoGroupAccess)
    {
      if groupId in db.groups && db.IsMember(user.id, groupId) then Ok(db.groups[groupId])
      else Err(PermissionDenied(NoGroupAccess))
    }

    /** Every stored blob decrypts under this service's key. */
    ghost predicate AllDecryptable()
      reads db
    {
      forall k :: k in db.passwords ==> encryption.DecryptPassword(db.passwords[k].encryptedPassword).Ok?
    }

    /**
     * `create_password`: the access check comes first, then the encryption;
     * the new entry is bound to the requested group and stores the ciphertext
     * of the secret, and reading it back yields the secret.
     */
    method CreatePassword(data: PasswordCreate, user: User, now: Timestamp) returns (r: Result<Password, Error>)
      requires db.Valid()
      modifies db
      ensures db.Valid()
      ensures old(VerifyGroupAccess(data.groupId, user)).Err? ==> r == Err(PermissionDenied(NoGroupAccess))
      ensures old(VerifyGroupAccess(data.groupId, user)).Ok? && encryption.EncryptPassword(Some(data.password)).Err? ==>
        r == Err(encryption.EncryptPassword(Some(data.password)).error)
      ensures r.Ok? <==>
        old(VerifyGroupAccess(data.groupId, user)).Ok? && encryption.EncryptPassword(Some(data.password)).Ok?
      ensures r.Err? ==> unchanged(db)
      ensures r.Ok? ==>
        && old(VerifyGroupAccess(data.groupId, user)).Ok?
        && encryption.EncryptPassword(Some(data.password)).Ok?
        && r.value == Password(old(db.nextPasswordId), Some(data.title), Some(data.username),
                               encryption.EncryptPassword(Some(data.password)).value,
                               data.url, data.notes, data.groupId, Some(now), None)
        && r.value.id !in old(db.passwords)
        && db.passwords == old(db.passwords)[r.value.id := r.value]
        && db.nextPasswordId == old(db.nextPasswordId) + 1
      ensures r.Ok? && RoundTrips(encryption.cipher) ==>
        GetPassword(r.value.id, user) == Ok(PlainCopy(r.value, data.password))
      ensures RoundTrips(encryption.cipher) && old(AllDecryptable()) ==> AllDecryptable()
      ensures r.Err? ==> unchanged(db`nextPasswordId)
      ensures unchanged(db`users, db`groups, db`members, db`logs, db`associations)
      ensures unchanged(db`nextUserId, db`nextGroupId, db`nextLogId)
    {
      var access := VerifyGroupAccess(data.groupId, user);
      if access.Err? {
        return Err(access.error);
      }
      var encrypted := encryption.EncryptPassword(Some(data.password));
      if encrypted.Err? {
        return Err(encrypted.error);
      }
      var entry := Password(db.nextPasswordId, Some(data.title), Some(data.username), encrypted.value,
                            data.url, data.notes, access.value.id, Some(now), None);
      db.passwords := db.passwords[entry.id := entry];
      db.nextPasswordId := db.nextPasswordId + 1;
      r := Ok(entry);
    }

    /**
     * `get_password`: a missing id is NotFound even for a non-member (the
     * lookup precedes the access check); a member gets a copy carrying the
     * decrypted secret, and a decryption failure yields no plaintext.
     */
    function GetPassword(passwordId: int, user: User): (r: Result<Password, Error>)
      reads db
      ensures passwordId !in db.passwords ==> r == Err(NotFound(PasswordNotFound))
      ensures passwordId in db.passwords && VerifyGroupAccess(db.passwords[passwordId].groupId, user).Err? ==>
        r == Err(PermissionDenied(NoGroupAccess))
      ensures r.Ok? <==>
        && passwordId in db.passwords
        && VerifyGroupAccess(db.passwords[passwordId].groupId, user).Ok?
        && encryption.DecryptPassword(db.passwords[passwordId].encryptedPassword).Ok?
      ensures r.Ok? ==>
        r.value == PlainCopy(db.passwords[passwordId],
                             encryption.DecryptPassword(db.passwords[passwordId].encryptedPassword).value)
      ensures r.Err? && r.error.Runtime? ==> DecryptionFailed <= r.error.msg
    {
      if passwordId !in db.passwords then Err(NotFound(PasswordNotFound))
      else
        var row := db.passwords[passwordId];
        match VerifyGroupAccess(row.groupId, user)
        case Err(e) => Err(e)
        case Ok(_) =>
          match encryption.DecryptPassword(row.encryptedPassword)
          case Err(e) => Err(e)
          case Ok(plain) => Ok(PlainCopy(row, plain))
    }

    /**
     * `update_password`: NotFound, then the access check, then (when the patch
     * carries a secret) the encryption; only the patch's fields change, a new
     * secret is stored as its ciphertext, and id and group never change.
     */
    method UpdatePassword(passwordId: int, data: PasswordUpdate, user: User, now: Timestamp)
      returns (r: Result<Password, Error>)
      requires db.Valid()
      modifies db
      ensures db.Valid()
      ensures passwordId !in old(db.passwords) ==> r == Err(NotFound(PasswordNotFound))
      ensures passwordId in old(db.passwords) && old(VerifyGroupAccess(db.passwords[passwordId].groupId, user)).Err? ==>
        r == Err(PermissionDenied(NoGroupAccess))
      ensures (passwordId in old(db.passwords) && old(VerifyGroupAccess(db.passwords[passwordId].groupId, user)).Ok? &&
               data.password.Present? && encryption.EncryptPassword(data.password.value).Err?) ==>
        r == Err(encryption.EncryptPassword(data.password.value).error)
      ensures r.Ok? <==>
        && passwordId in old(db.passwords)
        && old(VerifyGroupAccess(db.passwords[passwordId].groupId, user)).Ok?
        && (data.password.Present? ==> encryption.EncryptPassword(data.password.value).Ok?)
      ensures r.Err? ==> unchanged(db)
      ensures r.Ok? ==>
        && passwordId in old(db.passwords)
        && old(VerifyGroupAccess(db.passwords[passwordId].groupId, user)).Ok?
        && var row := old(db.passwords)[passwordId];
           var encrypted := if data.password.Present? then encryption.EncryptPassword(data.password.value)
                            else Ok(row.encryptedPassword);
           && encrypted.Ok?
           && r.value == PatchedEntry(row, data, encrypted.value, now)
           && db.passwords == old(db.passwords)[passwordId := r.value]
      ensures RoundTrips(encryption.cipher) && old(AllDecryptable()) ==> AllDecryptable()
      ensures unchanged(db`users, db`groups, db`members, db`logs, db`associations)
      ensures unchanged(db`nextUserId, db`nextGroupId, db`nextPasswordId, db`nextLogId)
    {
      if passwordId !in db.passwords {
        return Err(NotFound(PasswordNotFound));
      }
      var row := db.passwords[passwordId];
      var access := VerifyGroupAccess(row.groupId, user);
      if access.Err? {
        return Err(access.error);
      }
      var encrypted: Option<string> := None;
      if data.password.Present? {
        var e := encryption.EncryptPassword(data.password.value);
        if e.Err? {
          return Err(e.error);
        }
        encrypted := Some(e.value);
      }
      var updated := UpdatedEntry(row, data, encrypted, now);
      db.passwords := db.passwords[passwordId := updated];
      r := Ok(updated);
    }

    /** `delete_password`: after the NotFound and access checks, exactly that entry is removed. */
    method DeletePassword(passwordId: int, user: User) returns (r: Result<(), Error>)
      requires db.Valid()
      modifies db
      ensures db.Valid()
      ensures passwordId !in old(db.passwords) ==> r == Err(NotFound(PasswordNotFound))
      ensures passwordId in old(db.passwords) && old(VerifyGroupAccess(db.passwords[passwordId].groupId, user)).Err? ==>
        r == Err(PermissionDenied(NoGroupAccess))
      ensures r.Ok? <==>
        passwordId in old(db.passwords) && old(VerifyGroupAccess(db.passwords[passwordId].groupId, user)).Ok?
      ensures r.Err? ==> unchanged(db)
      ensures r.Ok? ==> db.passwords == old(db.passwords) - {passwordId}
      ensures old(AllDecryptable()) ==> AllDecryptable()
      ensures unchanged(db`users, db`groups, db`members, db`logs, db`associations)
      ensures unchanged(db`nextUserId, db`nextGroupId, db`nextPasswordId, db`nextLogId)
    {
      if passwordId !in db.passwords {
        return Err(NotFound(PasswordNotFound));
      }
      var access := VerifyGroupAccess(db.passwords[passwordId].groupId, user);
      if access.Err? {
        return Err(access.error);
      }
      db.passwords := db.passwords - {passwordId};
      r := Ok(());
    }

    /**
     * `get_group_passwords`: after the access check, exactly the stored entries
     * of the group, as stored: their secrets stay encrypted.
     */
    function GetGroupPasswords(groupId: int, user: User): (r: Result<seq<Password>, Error>)
      reads db
      requires db.Valid()
      ensures r.Err? <==> VerifyGroupAccess(groupId, user).Err?
      ensures r.Err? ==> r.error == PermissionDenied(NoGroupAccess)
      ensures r.Ok? ==> forall p :: p in r.value <==> db.IsPasswordRow(p) && p.groupId == groupId
      ensures r.Ok? ==> forall i, j :: 0 <= i < j < |r.value| ==> r.value[i].id < r.value[j].id
    {
      match VerifyGroupAccess(groupId, user)
      case Err(e) => Err(e)
      case Ok(_) =>
        var ids := db.PasswordIdsOf(groupId);
        var rows := RowsOf(db.passwords, ids);
        assert forall i :: 0 <= i < |rows| ==> rows[i] == db.passwords[ids[i]];
        assert forall k :: k in db.passwords && db.passwords[k].groupId == groupId ==> db.passwords[k] in rows;
        Ok(rows)
    }
  }

  /**
   * The two membership guards agree on every existing group, and differ only
   * on a missing one: `get_group` says NotFound where `_verify_group_access`
   * says PermissionDenied.
   */
  lemma GuardsAgree(groups: Groups.GroupService, passwords: PasswordService, groupId: int, user: User)
    requires groups.db == passwords.db
    ensures groupId in groups.db.groups ==>
      (groups.GetGroup(groupId, user).Ok? <==> passwords.VerifyGroupAccess(groupId, user).Ok?)
    ensures groupId !in groups.db.groups ==>
      && groups.GetGroup(groupId, user) == Err(NotFound(Groups.GroupNotFound))
      && passwords.VerifyGroupAccess(groupId, user) == Err(PermissionDenied(NoGroupAccess))
  {
  }

  /**
   * A user outside a group can neither read an entry of it nor list it: both
   * calls are refused with PermissionDenied. (Update and delete make the same
   * refusal through the access guard, as their own postconditions state.)
   */
  lemma OutsidersAreRefused(svc: PasswordService, passwordId: int, user: User)
    requires svc.db.Valid()
    requires passwordId in svc.db.passwords
    requires !svc.db.IsMember(user.id, svc.db.passwords[passwordId].groupId)
    ensures svc.GetPassword(passwordId, user) == Err(PermissionDenied(NoGroupAccess))
    ensures svc.GetGroupPasswords(svc.db.passwords[passwordId].groupId, user) == Err(PermissionDenied(NoGroupAccess))
  {
  }
}
