/**
 * The group membership registry (app/services/group_service.py). Groups are
 * mutated only by their owner; the owner joins at creation and can never be
 * removed, so the owner stays a member (`Db.GroupsValid`).
 */
module Groups {
  import opened Wrappers
  import opened Entities
  import opened Store

  const GroupNotFound: string := "Group not found"
  const UserNotFound: string := "User not found"

  /** One entry of `group_data.dict(exclude_unset=True)`. */
  datatype GroupField = Name(name: Option<string>) | Description(description: Option<string>)

  /** The fields the client sent, in the schema's order. */
  function GroupItems(data: GroupUpdate): (items: seq<GroupField>)
    ensures |items| <= 2
    ensures data.name.Present? ==> Name(data.name.value) in items
    ensures data.description.Present? ==> Description(data.description.value) in items
    ensures forall i :: 0 <= i < |items| && items[i].Name? ==> data.name == Present(items[i].name)
    ensures forall i :: 0 <= i < |items| && items[i].Description? ==> data.description == Present(items[i].description)
  {
    (if data.name.Present? then [Name(data.name.value)] else []) +
    (if data.description.Present? then [Description(data.description.value)] else [])
  }

  /** `setattr(group, field, value)`. */
  function SetGroupField(g: Group, f: GroupField): (r: Group)
    ensures f.Name? ==> r == g.(name := f.name)
    ensures f.Description? ==> r == g.(description := f.description)
  {
    match f
    case Name(v) => g.(name := v)
    case Description(v) => g.(description := v)
  }

  /** Setting every item of the dict sets exactly the patched fields. */
  lemma {:induction false} GroupItemsApply(g: Group, data: GroupUpdate)
    ensures ApplyAll(g, GroupItems(data), SetGroupField) ==
      g.(name := Patched(data.name, g.name), description := Patched(data.description, g.description))
  {
    var a := if data.name.Present? then [Name(data.name.value)] else [];
    var b := if data.description.Present? then [Description(data.description.value)] else [];
    ApplyAllAppend(g, a, b, SetGroupField);
  }

  class GroupService {
    const db: Db

    constructor (db: Db)
      ensures this.db == db
    {
      this.db := db;
    }

    /** `create_group`: the creator becomes the owner and the sole member of a new group. */
    method CreateGroup(data: GroupCreate, user: User) returns (group: Group)
      requires db.Valid() && db.IsUserRow(user)
      modifies db
      ensures db.Valid()
      ensures group == Group(old(db.nextGroupId), Some(data.name), data.description, Some(user.id))
      ensures group.id !in old(db.groups)
      ensures db.groups == old(db.groups)[group.id := group]
      ensures db.members == old(db.members) + {(user.id, group.id)}
      ensures db.MembersOf(group.id) == {user.id}
      ensures db.nextGroupId == old(db.nextGroupId) + 1
      ensures unchanged(db`users, db`passwords, db`logs, db`associations)
      ensures unchanged(db`nextUserId, db`nextPasswordId, db`nextLogId)
    {
      group := Group(db.nextGroupId, Some(data.name), data.description, Some(user.id));
      assert forall p :: p in db.members ==> p.1 != group.id;
      db.groups := db.groups[group.id := group];
      db.members := db.members + {(user.id, group.id)};
      db.nextGroupId := db.nextGroupId + 1;
    }

    /** `get_group`: a missing group is NotFound; an existing one is returned only to its members. */
    function GetGroup(groupId: int, user: User): (r: Result<Group, Error>)
      reads db
      ensures groupId !in db.groups ==> r == Err(NotFound(GroupNotFound))
      ensures groupId in db.groups && !db.IsMember(user.id, groupId) ==>
        r == Err(PermissionDenied("You are not a member of this group"))
      ensures r.Ok? <==> groupId in db.groups && db.IsMember(user.id, groupId)
      ensures r.Ok? ==> r.value == db.groups[groupId]
    {
      if groupId !in db.groups then Err(NotFound(GroupNotFound))
      else if !db.IsMember(user.id, groupId) then Err(PermissionDenied("You are not a member of this group"))
      else Ok(db.groups[groupId])
    }

    /**
     * `add_member`: NotFound for a missing group, then PermissionDenied for a
     * caller who is not the owner, then NotFound for an unknown username;
     * otherwise exactly that user is in the group afterwards (a no-op when
     * already a member).
     */
    method AddMember(groupId: int, username: string, currentUser: User) returns (r: Result<Group, Error>)
      requires db.Valid()
      modifies db
      ensures db.Valid()
      ensures groupId !in old(db.groups) ==> r == Err(NotFound(GroupNotFound))
      ensures groupId in old(db.groups) && old(db.groups)[groupId].ownerId != Some(currentUser.id) ==>
        r == Err(PermissionDenied("Only the group owner can add members"))
      ensures (groupId in old(db.groups) && old(db.groups)[groupId].ownerId == Some(currentUser.id) &&
               old(db.UserByName(username)).None?) ==> r == Err(NotFound(UserNotFound))
      ensures r.Ok? <==>
        groupId in old(db.groups) && old(db.groups)[groupId].ownerId == Some(currentUser.id) &&
        old(db.UserByName(username)).Some?
      ensures r.Err? ==> unchanged(db)
      ensures r.Ok? ==>
        && groupId in old(db.groups) && old(db.UserByName(username)).Some?
        && r.value == old(db.groups)[groupId]
        && db.members == old(db.members) + {(old(db.UserByName(username)).value.id, groupId)}
      ensures unchanged(db`users, db`groups, db`passwords, db`logs, db`associations)
      ensures unchanged(db`nextUserId, db`nextGroupId, db`nextPasswordId, db`nextLogId)
    {
      if groupId !in db.groups {
        return Err(NotFound(GroupNotFound));
      }
      var group := db.groups[groupId];
      if group.ownerId != Some(currentUser.id) {
        return Err(PermissionDenied("Only the group owner can add members"));
      }
      var user := db.UserByName(username);
      if user.None? {
        return Err(NotFound(UserNotFound));
      }
      if !db.IsMember(user.value.id, groupId) {
        db.members := db.members + {(user.value.id, groupId)};
      }
      r := Ok(group);
    }

    /**
     * `remove_member`: the checks of `add_member`, then PermissionDenied when
     * the target is the caller (who is the owner); otherwise only that user
     * leaves the group (a no-op for a non-member).
     */
    method RemoveMember(groupId: int, username: string, currentUser: User) returns (r: Result<Group, Error>)
      requires db.Valid()
      modifies db
      ensures db.Valid()
      ensures groupId !in old(db.groups) ==> r == Err(NotFound(GroupNotFound))
      ensures groupId in old(db.groups) && old(db.groups)[groupId].ownerId != Some(currentUser.id) ==>
        r == Err(PermissionDenied("Only the group owner can remove members"))
      ensures (groupId in old(db.groups) && old(db.groups)[groupId].ownerId == Some(currentUser.id) &&
               old(db.UserByName(username)).None?) ==> r == Err(NotFound(UserNotFound))
      ensures (groupId in old(db.groups) && old(db.groups)[groupId].ownerId == Some(currentUser.id) &&
               old(db.UserByName(username)).Some? && old(db.UserByName(username)).value.id == currentUser.id) ==>
        r == Err(PermissionDenied("Cannot remove the group owner"))
      ensures r.Ok? <==>
        groupId in old(db.groups) && old(db.groups)[groupId].ownerId == Some(currentUser.id) &&
        old(db.UserByName(username)).Some? && old(db.UserByName(username)).value.id != currentUser.id
      ensures r.Err? ==> unchanged(db)
      ensures r.Ok? ==>
        && groupId in old(db.groups) && old(db.UserByName(username)).Some?
        && old(db.UserByName(username)).value.id != currentUser.id
        && r.value == old(db.groups)[groupId]
        && db.members == old(db.members) - {(old(db.UserByName(username)).value.id, groupId)}
      ensures unchanged(db`users, db`groups, db`passwords, db`logs, db`associations)
      ensures unchanged(db`nextUserId, db`nextGroupId, db`nextPasswordId, db`nextLogId)
    {
      if groupId !in db.groups {
        return Err(NotFound(GroupNotFound));
      }
      var group := db.groups[groupId];
      if group.ownerId != Some(currentUser.id) {
        return Err(PermissionDenied("Only the group owner can remove members"));
      }
      var user := db.UserByName(username);
      if user.None? {
        return Err(NotFound(UserNotFound));
      }
      if user.value.id == currentUser.id {
        return Err(PermissionDenied("Cannot remove the group owner"));
      }
      if db.IsMember(user.value.id, groupId) {
        db.members := db.members - {(user.value.id, groupId)};
      }
      r := Ok(group);
    }

    /** The filter of `get_user_groups`: owner or member. */
    predicate OwnsOrBelongs(user: User, groupId: int)
      reads db
    {
      (groupId in db.groups && db.groups[groupId].ownerId == Some(user.id)) || db.IsMember(user.id, groupId)
    }

    /** `get_user_groups`: exactly the groups the user owns or belongs to, in ascending id order. */
    function GetUserGroups(user: User): (r: seq<Group>)
      reads db
      requires db.Valid()
      ensures forall g :: g in r <==> db.IsGroupRow(g) && OwnsOrBelongs(user, g.id)
      ensures forall i, j :: 0 <= i < j < |r| ==> r[i].id < r[j].id
    {
      var chosen := set k | k in db.groups && OwnsOrBelongs(user, k);
      var ids := AscendingIds(chosen, db.nextGroupId);
      var r := RowsOf(db.groups, ids);
      assert forall i :: 0 <= i < |r| ==> r[i] == db.groups[ids[i]] && ids[i] in chosen;
      assert forall k :: k in chosen ==> k in ids && db.groups[k] in r;
      r
    }

    /**
     * `update_group`: owner-only (NotFound before PermissionDenied); only the
     * name and description the patch carries change, and the owner, the
     * members and the group's passwords are untouched.
     */
    method UpdateGroup(groupId: int, data: GroupUpdate, currentUser: User) returns (r: Result<Group, Error>)
      requires db.Valid()
      modifies db
      ensures db.Valid()
      ensures groupId !in old(db.groups) ==> r == Err(NotFound(GroupNotFound))
      ensures groupId in old(db.groups) && old(db.groups)[groupId].ownerId != Some(currentUser.id) ==>
        r == Err(PermissionDenied("Only the group owner can update the group"))
      ensures r.Ok? <==> groupId in old(db.groups) && old(db.groups)[groupId].ownerId == Some(currentUser.id)
      ensures r.Err? ==> unchanged(db)
      ensures r.Ok? ==>
        && groupId in old(db.groups)
        && var g := old(db.groups)[groupId];
           && g.ownerId == Some(currentUser.id)
           && r.value == Group(groupId, Patched(data.name, g.name), Patched(data.description, g.description), g.ownerId)
           && db.groups == old(db.groups)[groupId := r.value]
      ensures unchanged(db`users, db`members, db`passwords, db`logs, db`associations)
      ensures unchanged(db`nextUserId, db`nextGroupId, db`nextPasswordId, db`nextLogId)
    {
      if groupId !in db.groups {
        return Err(NotFound(GroupNotFound));
      }
      var group := db.groups[groupId];
      if group.ownerId != Some(currentUser.id) {
        return Err(PermissionDenied("Only the group owner can update the group"));
      }
      var updated := SetEach(group, GroupItems(data), SetGroupField);
      GroupItemsApply(group, data);
      db.groups := db.groups[groupId := updated];
      r := Ok(updated);
    }
  }

  /** Under the vault's integrity, every group in the list is one the user is a member of: ownership adds nothing. */
  lemma UserGroupsAreMemberships(svc: GroupService, user: User)
    requires svc.db.Valid()
    ensures forall g :: g in svc.GetUserGroups(user) <==> svc.db.IsGroupRow(g) && svc.db.IsMember(user.id, g.id)
  {
    assert svc.db.GroupsValid();
  }

  /** The owner of a group always passes `get_group` and reads the stored row. */
  lemma OwnerPassesGetGroup(svc: GroupService, groupId: int, user: User)
    requires svc.db.Valid()
    requires groupId in svc.db.groups && svc.db.groups[groupId].ownerId == Some(user.id)
    ensures svc.GetGroup(groupId, user) == Ok(svc.db.groups[groupId])
  {
    assert svc.db.GroupsValid();
  }
}
