/**
 * The draft list route and list operation of transfer.py: a
 * `get_group_passwords` that tells a missing group (NotFound) from a
 * non-member (PermissionDenied) and returns summaries without the secret,
 * behind a route that maps service errors to HTTP status codes.
 */
module Transfer {
  import opened Wrappers
  import opened Entities
  import opened Store
  import opened Encryption
  import Groups
  import Passwords

  /** An entry as listed: every column but the encrypted secret. */
  datatype PasswordSummary = PasswordSummary(
    id: int,
    title: Option<string>,
    username: Option<string>,
    url: Option<string>,
    notes: Option<string>,
    groupId: int,
    createdAt: Option<Timestamp>,
    updatedAt: Option<Timestamp>)

  function Summary(p: Password): (s: PasswordSummary)
    ensures s.id == p.id && s.groupId == p.groupId
    ensures s.title == p.title && s.username == p.username && s.url == p.url && s.notes == p.notes
    ensures s.createdAt == p.createdAt && s.updatedAt == p.updatedAt
  {
    PasswordSummary(p.id, p.title, p.username, p.url, p.notes, p.groupId, p.createdAt, p.updatedAt)
  }

  /** The list comprehension: one summary per row, in the rows' order. */
  function Summaries(rows: seq<Password>): (r: seq<PasswordSummary>)
    ensures |r| == |rows|
    ensures forall i :: 0 <= i < |rows| ==> r[i] == Summary(rows[i])
  {
    seq(|rows|, i requires 0 <= i < |rows| => Summary(rows[i]))
  }

  class PasswordService {
    const db: Db
    const encryption: EncryptionService

    constructor (db: Db, encryption: EncryptionService)
      ensures this.db == db && this.encryption == encryption
    {
      this.db := db;
      this.encryption := encryption;
    }

    /**
     * The list variant: NotFound for a missing group, PermissionDenied for a
     * non-member, else one summary per entry of the group, in ascending id
     * order; nothing is decrypted.
     */
    function GetGroupPasswords(groupId: int, user: User): (r: Result<seq<PasswordSummary>, Error>)
      reads db
      requires db.Valid()
      ensures groupId !in db.groups ==> r == Err(NotFound(Groups.GroupNotFound))
      ensures groupId in db.groups && !db.IsMember(user.id, groupId) ==>
        r == Err(PermissionDenied(Passwords.NoGroupAccess))
      ensures r.Ok? <==> groupId in db.groups && db.IsMember(user.id, groupId)
      ensures r.Ok? ==> forall i :: 0 <= i < |r.value| ==>
        r.value[i].id in db.passwords && r.value[i] == Summary(db.passwords[r.value[i].id]) && r.value[i].groupId == groupId
      ensures r.Ok? ==> forall k :: k in db.passwords && db.passwords[k].groupId == groupId ==>
        Summary(db.passwords[k]) in r.value
      ensures r.Ok? ==> forall i, j :: 0 <= i < j < |r.value| ==> r.value[i].id < r.value[j].id
    {
      if groupId !in db.groups then Err(NotFound(Groups.GroupNotFound))
      else if !db.IsMember(user.id, groupId) then Err(PermissionDenied(Passwords.NoGroupAccess))
      else
        var ids := db.PasswordIdsOf(groupId);
        var rows := RowsOf(db.passwords, ids);
        assert forall k :: k in db.passwords && db.passwords[k].groupId == groupId ==>
          k in ids && Summary(db.passwords[k]) in Summaries(rows);
        Ok(Summaries(rows))
    }
  }

  /**
   * Whenever both list operations succeed they list the same entries, in the
   * same order: the draft's answer is the stored one's with each secret
   * dropped. Where they differ is only the error for a missing group.
   */
  lemma ListsAgree(draft: PasswordService, stored: Passwords.PasswordService, groupId: int, user: User)
    requires draft.db == stored.db && draft.db.Valid()
    ensures draft.GetGroupPasswords(groupId, user).Ok? <==> stored.GetGroupPasswords(groupId, user).Ok?
    ensures draft.GetGroupPasswords(groupId, user).Ok? ==>
      draft.GetGroupPasswords(groupId, user).value == Summaries(stored.GetGroupPasswords(groupId, user).value)
    ensures groupId !in draft.db.groups ==>
      && draft.GetGroupPasswords(groupId, user) == Err(NotFound(Groups.GroupNotFound))
      && stored.GetGroupPasswords(groupId, user) == Err(PermissionDenied(Passwords.NoGroupAccess))
  {
  }

  const InvalidGroupId: string := "Invalid group ID provided"

  /** What the route's `try` block can raise: a service error, or an HTTPException of its own. */
  datatype Raised = Service(error: Error) | Http(status: nat, detail: string)

  /** The HTTP error the route answers with. */
  datatype HttpError = HttpError(status: nat, detail: string)

  /** `str(e)`: a service error's message; an HTTPException renders as "<status>: <detail>". */
  function Str(e: Raised): (s: string)
    ensures e.Service? ==> s == e.error.msg
    ensures e.Http? ==> s == NatToString(e.status) + ": " + e.detail
  {
    match e
    case Service(err) => err.msg
    case Http(status, detail) => NatToString(status) + ": " + detail
  }

  /**
   * The route's `except` clauses in order: NotFound is 404, PermissionDenied
   * is 403, and everything else, an HTTPException included, is 500.
   */
  function Handle(e: Raised): (h: HttpError)
    ensures e.Service? && e.error.NotFound? ==> h == HttpError(404, e.error.msg)
    ensures e.Service? && e.error.PermissionDenied? ==> h == HttpError(403, e.error.msg)
    ensures !(e.Service? && (e.error.NotFound? || e.error.PermissionDenied?)) ==> h == HttpError(500, Str(e))
  {
    match e
    case Service(NotFound(msg)) => HttpError(404, msg)
    case Service(PermissionDenied(msg)) => HttpError(403, msg)
    case _ => HttpError(500, Str(e))
  }

  /** The body of the `try`: the path parameter is an int, so `not group_id` holds exactly for 0. */
  function TryBody(svc: PasswordService, groupId: int, user: User): (r: Result<seq<PasswordSummary>, Raised>)
    reads svc.db
    requires svc.db.Valid()
    ensures groupId == 0 ==> r == Err(Http(422, InvalidGroupId))
    ensures groupId != 0 && svc.GetGroupPasswords(groupId, user).Ok? ==> r == Ok(svc.GetGroupPasswords(groupId, user).value)
    ensures groupId != 0 && svc.GetGroupPasswords(groupId, user).Err? ==> r == Err(Service(svc.GetGroupPasswords(groupId, user).error))
  {
    if groupId == 0 then Err(Http(422, InvalidGroupId))
    else
      match svc.GetGroupPasswords(groupId, user)
      case Ok(list) => Ok(list)
      case Err(e) => Err(Service(e))
  }

  /**
   * The route as written: the 422 raised inside the `try` is caught by the
   * generic handler, so a zero group id is answered with 500, and the route
   * never answers 422.
   */
  function RouteAsWritten(svc: PasswordService, groupId: int, user: User): (r: Result<seq<PasswordSummary>, HttpError>)
    reads svc.db
    requires svc.db.Valid()
    ensures r.Err? ==> r.error.status != 422
    ensures r.Ok? <==> groupId != 0 && groupId in svc.db.groups && svc.db.IsMember(user.id, groupId)
    ensures groupId != 0 && groupId !in svc.db.groups ==> r == Err(HttpError(404, Groups.GroupNotFound))
    ensures groupId != 0 && groupId in svc.db.groups && !svc.db.IsMember(user.id, groupId) ==>
      r == Err(HttpError(403, Passwords.NoGroupAccess))
  {
    match TryBody(svc, groupId, user)
    case Ok(list) => Ok(list)
    case Err(e) => Err(Handle(e))
  }

  /** The input that shows the discrepancy: group id 0 is a server error, not a validation error. */
  lemma ZeroGroupIdIsServerError(svc: PasswordService, user: User)
    requires svc.db.Valid()
    ensures RouteAsWritten(svc, 0, user) == Err(HttpError(500, "422: " + InvalidGroupId))
  {
    var raised := Http(422, InvalidGroupId);
    assert TryBody(svc, 0, user) == Err(raised);
    assert NatToString(422) == "422" by {
      assert NatToString(42) == "42" by {
        assert NatToString(4) == "4";
      }
    }
    assert Str(raised) == "422: " + InvalidGroupId;
    assert Handle(raised) == HttpError(500, "422: " + InvalidGroupId);
  }

  /**
   * The route as intended: the validation error escapes the generic handler
   * (as if re-raised by an `except HTTPException: raise` clause), and every
   * other answer is the one the route gives as written.
   */
  function Route(svc: PasswordService, groupId: int, user: User): (r: Result<seq<PasswordSummary>, HttpError>)
    reads svc.db
    requires svc.db.Valid()
    ensures groupId == 0 ==> r == Err(HttpError(422, InvalidGroupId))
    ensures groupId != 0 ==> r == RouteAsWritten(svc, groupId, user)
    ensures r.Err? ==> r.error.status == 422 || r.error.status == 404 || r.error.status == 403
    ensures r.Ok? ==> svc.GetGroupPasswords(groupId, user) == Ok(r.value)
  {
    match TryBody(svc, groupId, user)
    case Ok(list) => Ok(list)
    case Err(Http(status, detail)) => Err(HttpError(status, detail))
    case Err(e) => Err(Handle(e))
  }
}
