/** The rows of the legacy tables this layer reads and writes, and the whole store as one
    value. */
module Models {
  import opened Domain

  /** A session row; an `endTime` of 0 means "no end set". */
  datatype SessionRow = SessionRow(
    userId: UserId,
    startTime: int,
    endTime: int,
    lastReissue: int)

  /** The audit row written beside each new session. */
  datatype AuditRow = AuditRow(
    sessionId: SessionId,
    ipAddr: string,
    remoteHost: string,
    trackingCookie: string)

  datatype UserRow = UserRow(
    email: string,
    firstName: string,
    lastName: string,
    suffixName: string,
    flagEmailVerified: int)

  /** Session rows by id, audit rows in insertion order, user rows and nicknames by user
      id, and the id the store will assign to the next session row. */
  datatype Db = Db(
    sessions: map<SessionId, SessionRow>,
    audits: seq<AuditRow>,
    users: map<UserId, UserRow>,
    nicknames: map<UserId, string>,
    nextId: SessionId)

  /** The store's invariant: the id counter is ahead of every session id, every audit row
      belongs to a session, and audit rows and session rows correspond one to one. */
  predicate Valid(db: Db)
  {
    && (forall sid :: sid in db.sessions ==> sid < db.nextId)
    && (forall i :: 0 <= i < |db.audits| ==> db.audits[i].sessionId in db.sessions)
    && (forall i, j :: 0 <= i < j < |db.audits| ==> db.audits[i].sessionId != db.audits[j].sessionId)
    && |db.audits| == |db.sessions|
  }

  /** The authoritative expiry test on a stored row: a set end marker that lies before now. */
  predicate StoredExpired(row: SessionRow, now: int)
  {
    row.endTime != 0 && row.endTime < now
  }
}
