/** The legacy session lifecycle: loading a session from its cookie, creating one,
    generating its cookie and invalidating it. Reads are functions of the store's tables;
    `create` and `invalidate_by_id` change the tables in place through `SessionStore`,
    whose methods are specified by the step functions below. */
module Sessions {
  import opened Domain
  import opened Exceptions
  import opened Cookies
  import opened Models

  /** The foreign lookups that rebuild a user's authorizations. */
  datatype Lookups = Lookups(
    capabilities: UserRow -> int,
    endorsements: User -> map<string, int>,
    scopes: UserRow -> set<string>)

  /** The new tables after an operation, and what the operation returned or raised. */
  datatype Step<T> = Step(db: Db, result: Result<T>)

  /** The join `load` performs: a session row with this id owned by this user, the
      user's row, and a nickname row for the user. */
  predicate Joined(db: Db, sid: SessionId, uid: UserId)
  {
    sid in db.sessions && db.sessions[sid].userId == uid && uid in db.users && uid in db.nicknames
  }

  /** `_load`: the session row with the given id. */
  function LoadRow(db: Db, sid: SessionId): (r: Result<SessionRow>)
    ensures r.Success? <==> sid in db.sessions
    ensures r.Success? ==> r.value == db.sessions[sid]
    ensures r.Failure? ==> r.error == UnknownSession
  {
    if sid in db.sessions then Success(db.sessions[sid]) else Failure(UnknownSession)
  }

  /** `load`: the session a cookie names, at time `now`. The store is only read. */
  function Load(db: Db, codec: Codec, lookups: Lookups, cookie: string, now: int): (r: Result<Session>)
    // a decoding failure escapes as it is
    ensures codec.unpack(cookie).Failure? ==> r == Failure(codec.unpack(cookie).error)
    // the cookie's own expiry claim rejects before any row is looked at
    ensures codec.unpack(cookie).Success? && codec.unpack(cookie).value.expiresAt <= now ==>
      r == Failure(SessionExpired)
    // a missing part of the join is an unknown session
    ensures codec.unpack(cookie).Success? ==>
      var c := codec.unpack(cookie).value;
      (r == Failure(UnknownSession) <==> now < c.expiresAt && !Joined(db, c.sessionId, c.userId))
    // expiry: by the claim, or by a set stored end marker that lies before now
    ensures codec.unpack(cookie).Success? ==>
      var c := codec.unpack(cookie).value;
      (r == Failure(SessionExpired) <==>
         c.expiresAt <= now ||
         (Joined(db, c.sessionId, c.userId) && StoredExpired(db.sessions[c.sessionId], now)))
    ensures r.Success? <==>
      codec.unpack(cookie).Success? &&
      var c := codec.unpack(cookie).value;
      now < c.expiresAt && Joined(db, c.sessionId, c.userId) &&
      !StoredExpired(db.sessions[c.sessionId], now)
    // the session returned carries the store's id, the user rebuilt from the rows, and
    // the cookie's (not the row's) start and end times
    ensures r.Success? ==>
      var c := codec.unpack(cookie).value;
      var s := r.value;
      && s.sessionId == c.sessionId && s.sessionId in db.sessions
      && s.startTime == c.issuedAt && s.endTime == c.expiresAt
      && s.user.userId == c.userId
      && s.user.username == db.nicknames[c.userId]
      && s.user.email == db.users[c.userId].email
      && s.user.name == UserFullName(db.users[c.userId].firstName, db.users[c.userId].lastName,
                                     db.users[c.userId].suffixName)
      && s.user.verified == (db.users[c.userId].flagEmailVerified != 0)
      && s.authorizations.classic == lookups.capabilities(db.users[c.userId])
      && s.authorizations.endorsements == lookups.endorsements(s.user)
      && s.authorizations.scopes == lookups.scopes(db.users[c.userId])
      && s.ipAddress == None
  {
    match codec.unpack(cookie)
    case Failure(e) => Failure(e)
    case Success(c) =>
      if c.expiresAt <= now then Failure(SessionExpired)
      else if !Joined(db, c.sessionId, c.userId) then Failure(UnknownSession)
      else
        var userRow := db.users[c.userId];
        var row := db.sessions[c.sessionId];
        if row.endTime != 0 && row.endTime < now then Failure(SessionExpired)
        else
          var user := User(c.userId, db.nicknames[c.userId], userRow.email,
                           UserFullName(userRow.firstName, userRow.lastName, userRow.suffixName),
                           userRow.flagEmailVerified != 0);
          var authorizations := Authorizations(lookups.capabilities(userRow),
                                               lookups.endorsements(user),
                                               lookups.scopes(userRow));
          Success(Session(c.sessionId, c.issuedAt, c.expiresAt, user, authorizations, None))
  }

  /** `generate_cookie`: the session projected back into cookie form. With a codec that
      keeps its round-trip promise, the cookie decodes to the session's id, user, address,
      start time and capabilities, with the expiry the configured duration gives. */
  function GenerateCookie(codec: Codec, s: Session): (c: string)
    ensures forall duration: nat :: RoundTrips(codec, duration) ==>
      codec.unpack(c) == Success(CookieFields(s.sessionId, s.user.userId, s.ipAddress, s.startTime,
                                              s.startTime + duration, s.authorizations.classic))
  {
    codec.pack(PackArgs(s.sessionId, s.user.userId, s.ipAddress, s.startTime, s.authorizations.classic))
  }

  /** `create`: a new session row and its audit row. `fault` stands for the store raising
      while the rows are written; the transaction then leaves no row behind. */
  function CreateStep(db: Db, authorizations: Authorizations, ip: string, remoteHost: string,
                      trackingCookie: string, user: Option<User>, now: int, duration: nat,
                      fault: bool): (s: Step<Session>)
    requires Valid(db)
    ensures Valid(s.db)
    ensures s.result.Success? <==> user.Some? && !fault
    ensures s.result.Failure? ==> s.db == db && s.result.error == SessionCreationFailed
    ensures s.result.Success? ==>
      var sid := s.result.value.sessionId;
      // a fresh id, exactly one new session row and one audit row linked to it
      && sid !in db.sessions
      && s.db.sessions.Keys == db.sessions.Keys + {sid}
      && |s.db.sessions| == |db.sessions| + 1
      && (forall k :: k in db.sessions ==> s.db.sessions[k] == db.sessions[k])
      && s.db.sessions[sid] == SessionRow(user.value.userId, now, 0, now)
      && s.db.audits == db.audits + [AuditRow(sid, ip, remoteHost, trackingCookie)]
      && s.db.users == db.users && s.db.nicknames == db.nicknames
      // the session returned ends one duration after it starts
      && s.result.value == Session(sid, now, now + duration, user.value, authorizations, None)
  {
    if user.None? then Step(db, Failure(SessionCreationFailed))
    else if fault then Step(db, Failure(SessionCreationFailed))
    else
      var sid := db.nextId;
      var db' := db.(sessions := db.sessions[sid := SessionRow(user.value.userId, now, 0, now)],
                     audits := db.audits + [AuditRow(sid, ip, remoteHost, trackingCookie)],
                     nextId := sid + 1);
      assert db'.sessions.Keys == db.sessions.Keys + {sid};
      Step(db', Success(Session(sid, now, now + duration, user.value, authorizations, None)))
  }

  /** `invalidate_by_id`: the session's end marker set to one second before now. `fault`
      stands for the store raising anywhere in the transaction, the row lookup included. */
  function InvalidateByIdStep(db: Db, sid: SessionId, now: int, fault: bool): (s: Step<()>)
    ensures Valid(db) ==> Valid(s.db)
    ensures s.result.Success? <==> sid in db.sessions && !fault
    ensures fault ==> s == Step(db, Failure(IOError))
    ensures sid !in db.sessions && !fault ==> s == Step(db, Failure(UnknownSession))
    ensures s.result.Success? ==>
      // only that row's end marker changes
      && s.db.sessions.Keys == db.sessions.Keys
      && (forall k :: k in db.sessions && k != sid ==> s.db.sessions[k] == db.sessions[k])
      && s.db.sessions[sid].endTime == now - 1
      && s.db.sessions[sid].userId == db.sessions[sid].userId
      && s.db.sessions[sid].startTime == db.sessions[sid].startTime
      && s.db.sessions[sid].lastReissue == db.sessions[sid].lastReissue
      && s.db.audits == db.audits && s.db.users == db.users
      && s.db.nicknames == db.nicknames && s.db.nextId == db.nextId
      // unless the clock reads 1, the row now reads as expired from now on
      && (now != 1 ==> forall t :: now <= t ==> StoredExpired(s.db.sessions[sid], t))
  {
    if fault then Step(db, Failure(IOError))
    else
      match LoadRow(db, sid)
      case Failure(e) => Step(db, Failure(e))
      case Success(row) =>
        var db' := db.(sessions := db.sessions[sid := row.(endTime := now - 1)]);
        assert db'.sessions.Keys == db.sessions.Keys;
        Step(db', Success(()))
  }

  /** `invalidate`: decode the cookie, then invalidate the session it names. A cookie that
      does not decode is reported as an unknown session. */
  function InvalidateStep(db: Db, codec: Codec, cookie: string, now: int, fault: bool): (s: Step<()>)
    ensures Valid(db) ==> Valid(s.db)
    ensures codec.unpack(cookie) == Failure(InvalidCookie) ==> s == Step(db, Failure(UnknownSession))
    ensures codec.unpack(cookie).Failure? && codec.unpack(cookie).error != InvalidCookie ==>
      s == Step(db, Failure(codec.unpack(cookie).error))
    ensures codec.unpack(cookie).Success? ==>
      s == InvalidateByIdStep(db, codec.unpack(cookie).value.sessionId, now, fault)
  {
    match codec.unpack(cookie)
    case Failure(e) => Step(db, Failure(if e == InvalidCookie then UnknownSession else e))
    case Success(c) => InvalidateByIdStep(db, c.sessionId, now, fault)
  }

  /** The legacy tables, updated in place by `create` and `invalidate_by_id`. */
  class SessionStore {
    var sessions: map<SessionId, SessionRow>
    var audits: seq<AuditRow>
    var users: map<UserId, UserRow>
    var nicknames: map<UserId, string>
    var nextId: SessionId

    function Tables(): Db
      reads this
    {
      Db(sessions, audits, users, nicknames, nextId)
    }

    predicate Valid()
      reads this
    {
      Models.Valid(Tables())
    }

    /** An empty session table beside the given user and nickname rows. */
    constructor (users: map<UserId, UserRow>, nicknames: map<UserId, string>)
      ensures Valid()
      ensures Tables() == Db(map[], [], users, nicknames, 1)
    {
      this.sessions := map[];
      this.audits := [];
      this.users := users;
      this.nicknames := nicknames;
      this.nextId := 1;
    }

    method Create(authorizations: Authorizations, ip: string, remoteHost: string,
                  trackingCookie: string, user: Option<User>, now: int, duration: nat,
                  fault: bool) returns (r: Result<Session>)
      requires Valid()
      modifies this
      ensures Valid()
      ensures var s := CreateStep(old(Tables()), authorizations, ip, remoteHost, trackingCookie,
                                  user, now, duration, fault);
              Tables() == s.db && r == s.result
    {
      if user.None? {
        r := Failure(SessionCreationFailed);
        return;
      }
      if fault {
        // the transaction rolls back: no row is left behind
        r := Failure(SessionCreationFailed);
        return;
      }
      var sid := nextId;
      sessions := sessions[sid := SessionRow(user.value.userId, now, 0, now)];
      audits := audits + [AuditRow(sid, ip, remoteHost, trackingCookie)];
      nextId := nextId + 1;
      r := Success(Session(sid, now, now + duration, user.value, authorizations, None));
    }

    method InvalidateById(sid: SessionId, now: int, fault: bool) returns (r: Result<()>)
      requires Valid()
      modifies this
      ensures Valid()
      ensures var s := InvalidateByIdStep(old(Tables()), sid, now, fault);
              Tables() == s.db && r == s.result
    {
      if fault {
        // the backend raised inside the transaction: nothing is written
        r := Failure(IOError);
        return;
      }
      var found := LoadRow(Tables(), sid);
      if found.Failure? {
        r := Failure(found.error);
        return;
      }
      sessions := sessions[sid := found.value.(endTime := now - 1)];
      r := Success(());
    }

    method Invalidate(codec: Codec, cookie: string, now: int, fault: bool) returns (r: Result<()>)
      requires Valid()
      modifies this
      ensures Valid()
      ensures var s := InvalidateStep(old(Tables()), codec, cookie, now, fault);
              Tables() == s.db && r == s.result
    {
      var decoded := codec.unpack(cookie);
      if decoded.Failure? {
        r := Failure(if decoded.error == InvalidCookie then UnknownSession else decoded.error);
        return;
      }
      r := InvalidateById(decoded.value.sessionId, now, fault);
    }
  }
}
