/**
 * The in-memory vault: the users, groups, group_members, passwords, logs and
 * log_associations tables, with the integrity the relational schema enforces
 * (primary keys, unique username/email, foreign keys) and the design invariant
 * that a group's owner is one of its members.
 */
module Store {
  import opened Wrappers
  import opened Entities

  /**
   * The ids of `s` below `n`, in ascending order. List queries in this model
   * return their rows in this order, and `.first()` on a unique column picks
   * the first of them.
   */
  function AscendingIds(s: set<int>, n: nat): (r: seq<int>)
    ensures forall i :: 0 <= i < |r| ==> r[i] in s && 0 <= r[i] < n
    ensures forall k :: k in s && 0 <= k < n ==> k in r
    ensures forall i, j :: 0 <= i < j < |r| ==> r[i] < r[j]
    decreases n
  {
    if n == 0 then []
    else AscendingIds(s, n - 1) + (if n - 1 in s then [n - 1] else [])
  }

  /** The rows stored under `ids`, in the order of `ids`. */
  function RowsOf<T>(m: map<int, T>, ids: seq<int>): (r: seq<T>)
    requires forall i :: 0 <= i < |ids| ==> ids[i] in m
    ensures |r| == |ids|
    ensures forall i :: 0 <= i < |ids| ==> r[i] == m[ids[i]]
  {
    seq(|ids|, i requires 0 <= i < |ids| => m[ids[i]])
  }

  class Db {
    var users: map<int, User>
    var groups: map<int, Group>
    /** The group_members association table: (user_id, group_id) pairs, both columns the key. */
    var members: set<(int, int)>
    var passwords: map<int, Password>
    var logs: map<int, Log>
    var associations: set<LogAssociation>
    /** The next value of each table's id sequence; ids start at 1 and are never reused. */
    var nextUserId: nat
    var nextGroupId: nat
    var nextPasswordId: nat
    var nextLogId: nat

    /** Every user row is stored under its own id, and usernames and non-null emails are unique. */
    ghost predicate UsersValid()
      reads this
    {
      && (forall k :: k in users ==> users[k].id == k && 1 <= k < nextUserId)
      && (forall a, b :: a in users && b in users && users[a].username == users[b].username ==> a == b)
      && (forall a, b :: a in users && b in users && users[a].email.Some? && users[a].email == users[b].email ==> a == b)
    }

    /** Every group row is stored under its own id; an owner is an existing user and a member. */
    ghost predicate GroupsValid()
      reads this
    {
      forall g :: g in groups ==>
        && groups[g].id == g && 1 <= g < nextGroupId
        && (groups[g].ownerId.Some? ==> groups[g].ownerId.value in users && (groups[g].ownerId.value, g) in members)
    }

    /** Membership rows reference an existing user and an existing group. */
    ghost predicate MembersValid()
      reads this
    {
      forall p :: p in members ==> p.0 in users && p.1 in groups
    }

    /** Every password row is stored under its own id and belongs to an existing group. */
    ghost predicate PasswordsValid()
      reads this
    {
      forall k :: k in passwords ==> passwords[k].id == k && 1 <= k < nextPasswordId && passwords[k].groupId in groups
    }

    /** Every log row is stored under its own id, and every association references a log. */
    ghost predicate LogsValid()
      reads this
    {
      && (forall k :: k in logs ==> logs[k].id == k && 1 <= k < nextLogId)
      && (forall a :: a in associations ==> a.logId in logs)
    }

    ghost predicate Valid()
      reads this
    {
      && nextUserId >= 1 && nextGroupId >= 1 && nextPasswordId >= 1 && nextLogId >= 1
      && UsersValid() && GroupsValid() && MembersValid() && PasswordsValid() && LogsValid()
    }

    constructor ()
      ensures Valid()
      ensures users == map[] && groups == map[] && members == {} && passwords == map[]
      ensures logs == map[] && associations == {}
    {
      users, groups, members, passwords := map[], map[], {}, map[];
      logs, associations := map[], {};
      nextUserId, nextGroupId, nextPasswordId, nextLogId := 1, 1, 1, 1;
    }

    /** `u` is the current value of a row of the users table (an authenticated actor). */
    predicate IsUserRow(u: User)
      reads this
    {
      u.id in users && users[u.id] == u
    }

    predicate IsGroupRow(g: Group)
      reads this
    {
      g.id in groups && groups[g.id] == g
    }

    predicate IsPasswordRow(p: Password)
      reads this
    {
      p.id in passwords && passwords[p.id] == p
    }

    predicate IsLogRow(l: Log)
      reads this
    {
      l.id in logs && logs[l.id] == l
    }

    /** The membership fact consumed by every access check. */
    predicate IsMember(userId: int, groupId: int)
      reads this
    {
      (userId, groupId) in members
    }

    /** The ids of the members of a group (`group.members`). */
    function MembersOf(groupId: int): (r: set<int>)
      reads this
      ensures forall u :: u in r <==> IsMember(u, groupId)
    {
      set p | p in members && p.1 == groupId :: p.0
    }

    /** The ids of a group's entries (`query(Password).filter(Password.group_id == g).all()`), in ascending order. */
    function PasswordIdsOf(groupId: int): (ids: seq<int>)
      reads this
      requires Valid()
      ensures forall i :: 0 <= i < |ids| ==> ids[i] in passwords && passwords[ids[i]].groupId == groupId
      ensures forall k :: k in passwords && passwords[k].groupId == groupId ==> k in ids
      ensures forall i, j :: 0 <= i < j < |ids| ==> ids[i] < ids[j]
    {
      var inGroup := set k | k in passwords && passwords[k].groupId == groupId;
      var ids := AscendingIds(inGroup, nextPasswordId);
      assert PasswordsValid();
      assert forall k :: k in inGroup ==> k in ids;
      ids
    }

    /** `query(User).filter(User.username == name).first()`. */
    function UserByName(name: string): (r: Option<User>)
      reads this
      requires Valid()
      ensures r.Some? ==> IsUserRow(r.value) && r.value.username == name
      ensures r.None? <==> forall k :: k in users ==> users[k].username != name
    {
      var named := set k | k in users && users[k].username == name;
      var ids := AscendingIds(named, nextUserId);
      assert UsersValid();
      assert forall k :: k in users && users[k].username == name ==> k in named && k in ids;
      if |ids| == 0 then None
      else
        assert ids[0] in named;
        Some(users[ids[0]])
    }

    /** Usernames are unique, so looking up a stored user's name finds that very row. */
    lemma UserByNameFindsRow(u: User)
      requires Valid() && IsUserRow(u)
      ensures UserByName(u.username) == Some(u)
    {
      assert UsersValid();
    }

    /** `query(User).filter(User.email == email).first()` is not empty. */
    predicate EmailTaken(email: string)
      reads this
    {
      exists k :: k in users && users[k].email == Some(email)
    }

    /** Another user than `userId` already holds the (non-null) email. */
    predicate EmailClash(userId: int, email: Option<string>)
      reads this
    {
      email.Some? && exists k :: k in users && k != userId && users[k].email == email
    }

    /** Committing changed columns of a stored user; the username is never among them. */
    method ReplaceUser(u: User)
      requires Valid()
      requires u.id in users && u.username == users[u.id].username
      requires !EmailClash(u.id, u.email)
      modifies this
      ensures Valid()
      ensures users == old(users)[u.id := u]
      ensures unchanged(this`groups, this`members, this`passwords, this`logs, this`associations)
      ensures unchanged(this`nextUserId, this`nextGroupId, this`nextPasswordId, this`nextLogId)
    {
      users := users[u.id := u];
    }

    /** `db.add(user)`: a new row under the next id; the checks before it keep both unique columns unique. */
    method InsertUser(u: User)
      requires Valid()
      requires u.id == nextUserId
      requires forall k :: k in users ==> users[k].username != u.username
      requires u.email.Some? ==> !EmailTaken(u.email.value)
      modifies this
      ensures Valid()
      ensures users == old(users)[u.id := u] && u.id !in old(users)
      ensures nextUserId == old(nextUserId) + 1
      ensures unchanged(this`groups, this`members, this`passwords, this`logs, this`associations)
      ensures unchanged(this`nextGroupId, this`nextPasswordId, this`nextLogId)
    {
      users := users[u.id := u];
      nextUserId := nextUserId + 1;
    }

    /**
     * `db.delete(user)` under the ORM's default cascades: the user's
     * group_members rows are deleted with it, and the groups it owned keep
     * their rows with owner_id set to NULL.
     */
    method DeleteUserRow(userId: int)
      requires Valid() && userId in users
      modifies this
      ensures Valid()
      ensures users == old(users) - {userId}
      ensures members == set p | p in old(members) && p.0 != userId
      ensures groups.Keys == old(groups).Keys
      ensures forall g :: g in groups ==>
        groups[g] == if old(groups)[g].ownerId == Some(userId) then old(groups)[g].(ownerId := None) else old(groups)[g]
      ensures unchanged(this`passwords, this`logs, this`associations)
      ensures unchanged(this`nextUserId, this`nextGroupId, this`nextPasswordId, this`nextLogId)
    {
      var before := groups;
      groups := map g | g in before ::
        if before[g].ownerId == Some(userId) then before[g].(ownerId := None) else before[g];
      members := set p | p in members && p.0 != userId;
      users := users - {userId};
    }
  }
}
