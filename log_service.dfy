/**
 * The audit log (app/services/log_service.py): an append-only logs table and
 * the log_associations table that tags each log with (id, type) pairs.
 */
module Logging {
  import opened Wrappers
  import opened Entities
  import opened Store

  class LogService {
    const db: Db

    constructor (db: Db)
      ensures this.db == db
    {
      this.db := db;
    }

    /** `create_log`: appends exactly one log under a fresh id; nothing else changes. */
    method CreateLog(msg: string, now: Timestamp) returns (log: Log)
      requires db.Valid()
      modifies db
      ensures db.Valid()
      ensures log == Log(old(db.nextLogId), now, msg)
      ensures log.id !in old(db.logs)
      ensures db.logs == old(db.logs)[log.id := log]
      ensures db.nextLogId == old(db.nextLogId) + 1
      ensures unchanged(db`users, db`groups, db`members, db`passwords, db`associations)
      ensures unchanged(db`nextUserId, db`nextGroupId, db`nextPasswordId)
    {
      log := Log(db.nextLogId, now, msg);
      db.logs := db.logs[log.id := log];
      db.nextLogId := db.nextLogId + 1;
    }

    /**
     * `create_association`: adds the (log, id, type) triple. All three columns
     * are the primary key, so inserting a triple that is already stored is
     * rejected by the database and changes nothing.
     */
    method CreateAssociation(log: Log, aid: int, atype: string) returns (r: Result<LogAssociation, Error>)
      requires db.Valid()
      requires log.id in db.logs
      modifies db
      ensures db.Valid()
      ensures LogAssociation(log.id, aid, atype) in old(db.associations) ==> r.Err? && r.error.Integrity? && unchanged(db)
      ensures LogAssociation(log.id, aid, atype) !in old(db.associations) ==>
        && r == Ok(LogAssociation(log.id, aid, atype))
        && db.associations == old(db.associations) + {r.value}
      ensures unchanged(db`users, db`groups, db`members, db`passwords, db`logs)
      ensures unchanged(db`nextUserId, db`nextGroupId, db`nextPasswordId, db`nextLogId)
    {
      var a := LogAssociation(log.id, aid, atype);
      if a in db.associations {
        return Err(Integrity("duplicate key value violates unique constraint \"log_associations_pkey\""));
      }
      db.associations := db.associations + {a};
      r := Ok(a);
    }

    /** `get_logs`: every log, whoever asks. */
    function GetLogs(currentUser: User): (r: seq<Log>)
      reads db
      requires db.Valid()
      ensures forall l :: l in r <==> db.IsLogRow(l)
      ensures forall i, j :: 0 <= i < j < |r| ==> r[i].id < r[j].id
    {
      var ids := AscendingIds(db.logs.Keys, db.nextLogId);
      RowsOf(db.logs, ids)
    }

    /** A log carries an association with id `aid` and one (maybe another) with type `atype`. */
    predicate Tagged(logId: int, aid: int, atype: string)
      reads db
    {
      && (exists a :: a in db.associations && a.logId == logId && a.associationId == aid)
      && (exists a :: a in db.associations && a.logId == logId && a.associationType == atype)
    }

    /** `get_logs_by`: the logs that pass both `any(...)` filters, which need not be met by one association. */
    function GetLogsBy(currentUser: User, aid: int, atype: string): (r: seq<Log>)
      reads db
      requires db.Valid()
      ensures forall l :: l in r <==> db.IsLogRow(l) && Tagged(l.id, aid, atype)
      ensures forall i, j :: 0 <= i < j < |r| ==> r[i].id < r[j].id
    {
      var tagged := set k | k in db.logs && Tagged(k, aid, atype);
      var ids := AscendingIds(tagged, db.nextLogId);
      var r := RowsOf(db.logs, ids);
      assert db.LogsValid();
      assert forall k :: k in tagged ==> k in ids && db.logs[k] in r;
      r
    }
  }
}
