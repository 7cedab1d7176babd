/** The session lifecycle as a whole: a trace of state-changing calls run against the
    store, and what later `load` calls can observe about sessions created or invalidated
    along the way. */
module Lifecycle {
  import opened Domain
  import opened Exceptions
  import opened Cookies
  import opened Models
  import opened Sessions

  /** One call that changes the store, with the clock reading it was made at. */
  datatype Op =
    | CreateOp(authorizations: Authorizations, ip: string, remoteHost: string,
               trackingCookie: string, user: Option<User>, now: int, fault: bool)
    | InvalidateByIdOp(sessionId: SessionId, now: int, fault: bool)
    | InvalidateOp(cookie: string, now: int, fault: bool)

  /** `duration` is the configured session duration, one setting for the whole process. */
  function Apply(db: Db, codec: Codec, duration: nat, op: Op): (d: Db)
    requires Valid(db)
    ensures Valid(d)
  {
    match op
    case CreateOp(a, ip, host, tracking, user, now, fault) =>
      CreateStep(db, a, ip, host, tracking, user, now, duration, fault).db
    case InvalidateByIdOp(sid, now, fault) => InvalidateByIdStep(db, sid, now, fault).db
    case InvalidateOp(cookie, now, fault) => InvalidateStep(db, codec, cookie, now, fault).db
  }

  /** The store after the calls of `ops`, in order. */
  function Run(db: Db, codec: Codec, duration: nat, ops: seq<Op>): (d: Db)
    requires Valid(db)
    ensures Valid(d)
    decreases |ops|
  {
    if ops == [] then db else Run(Apply(db, codec, duration, ops[0]), codec, duration, ops[1..])
  }

  /** One call keeps every session row, with its owner and start time, keeps every audit
      row, and never moves the id counter back. */
  lemma ApplyKeepsHistory(db: Db, codec: Codec, duration: nat, op: Op)
    requires Valid(db)
    ensures var d := Apply(db, codec, duration, op);
      && db.sessions.Keys <= d.sessions.Keys
      && db.audits <= d.audits
      && db.nextId <= d.nextId
      && d.users == db.users && d.nicknames == db.nicknames
      && (forall k :: k in db.sessions ==>
            d.sessions[k].userId == db.sessions[k].userId &&
            d.sessions[k].startTime == db.sessions[k].startTime)
  {
  }

  /** Session rows are never deleted nor handed to another user, audit rows are write-once
      and append-only, and session ids are never reused. */
  lemma {:induction false} RunKeepsHistory(db: Db, codec: Codec, duration: nat, ops: seq<Op>)
    requires Valid(db)
    ensures var d := Run(db, codec, duration, ops);
      && db.sessions.Keys <= d.sessions.Keys
      && db.audits <= d.audits
      && db.nextId <= d.nextId
      && d.users == db.users && d.nicknames == db.nicknames
      && (forall k :: k in db.sessions ==>
            d.sessions[k].userId == db.sessions[k].userId &&
            d.sessions[k].startTime == db.sessions[k].startTime)
    decreases |ops|
  {
    if ops != [] {
      ApplyKeepsHistory(db, codec, duration, ops[0]);
      RunKeepsHistory(Apply(db, codec, duration, ops[0]), codec, duration, ops[1..]);
    }
  }

  function OpTime(op: Op): int
  {
    match op
    case CreateOp(_, _, _, _, _, now, _) => now
    case InvalidateByIdOp(_, now, _) => now
    case InvalidateOp(_, now, _) => now
  }

  /** A row that reads as expired at `later` still does after one more call made no later
      than `later`, unless that call's clock read 1. */
  lemma ApplyKeepsExpired(db: Db, codec: Codec, duration: nat, op: Op, sid: SessionId, later: int)
    requires Valid(db)
    requires sid in db.sessions && StoredExpired(db.sessions[sid], later)
    requires OpTime(op) <= later && OpTime(op) != 1
    ensures sid in Apply(db, codec, duration, op).sessions
    ensures StoredExpired(Apply(db, codec, duration, op).sessions[sid], later)
  {
  }

  /** Once a session reads as expired at `later`, no trace of creations and invalidations
      made up to `later` (none at clock reading 1) brings it back. */
  lemma {:induction false} RunKeepsExpired(db: Db, codec: Codec, duration: nat, ops: seq<Op>,
                                           sid: SessionId, later: int)
    requires Valid(db)
    requires sid in db.sessions && StoredExpired(db.sessions[sid], later)
    requires forall i :: 0 <= i < |ops| ==> OpTime(ops[i]) <= later && OpTime(ops[i]) != 1
    ensures sid in Run(db, codec, duration, ops).sessions
    ensures StoredExpired(Run(db, codec, duration, ops).sessions[sid], later)
    decreases |ops|
  {
    if ops != [] {
      ApplyKeepsExpired(db, codec, duration, ops[0], sid, later);
      RunKeepsExpired(Apply(db, codec, duration, ops[0]), codec, duration, ops[1..], sid, later);
    }
  }

  /** Invalidation is permanent: after `invalidate_by_id` at time t (t != 1) and any later
      creations and invalidations, no cookie naming the session loads at a time from t on. */
  lemma InvalidatedSessionNeverLoads(db: Db, codec: Codec, duration: nat, lookups: Lookups,
                                     sid: SessionId, t: int, ops: seq<Op>, cookie: string,
                                     later: int)
    requires Valid(db) && sid in db.sessions
    requires t != 1 && t <= later
    requires forall i :: 0 <= i < |ops| ==> OpTime(ops[i]) <= later && OpTime(ops[i]) != 1
    requires codec.unpack(cookie).Success? && codec.unpack(cookie).value.sessionId == sid
    ensures InvalidateByIdStep(db, sid, t, false).result.Success?
    ensures var r := Load(Run(InvalidateByIdStep(db, sid, t, false).db, codec, duration, ops),
                          codec, lookups, cookie, later);
      r.Failure? && r.error in {SessionExpired, UnknownSession}
  {
    var s := InvalidateByIdStep(db, sid, t, false);
    RunKeepsExpired(s.db, codec, duration, ops, sid, later);
  }

  /** A session just created loads, through its own cookie, at any time before the end the
      cookie claims: with the created id, the same user id, and the created start and end. */
  lemma CreateThenLoad(db: Db, codec: Codec, duration: nat, lookups: Lookups,
                       authorizations: Authorizations, ip: string, remoteHost: string,
                       trackingCookie: string, user: User, now: int, later: int)
    requires Valid(db) && RoundTrips(codec, duration)
    requires user.userId in db.users && user.userId in db.nicknames
    requires later < now + duration
    ensures var s := CreateStep(db, authorizations, ip, remoteHost, trackingCookie, Some(user),
                                now, duration, false);
      && s.result.Success?
      && var r := Load(s.db, codec, lookups, GenerateCookie(codec, s.result.value), later);
         && r.Success?
         && r.value.sessionId == s.result.value.sessionId
         && r.value.user.userId == user.userId
         && r.value.startTime == now && r.value.endTime == now + duration
  {
  }

  /** A just-created session stops loading exactly when its cookie's claimed end is
      reached: its stored end marker is unset, so the stored check never expires it. */
  lemma CreatedSessionExpiresByClaim(db: Db, codec: Codec, duration: nat, lookups: Lookups,
                                     authorizations: Authorizations, ip: string,
                                     remoteHost: string, trackingCookie: string, user: User,
                                     now: int, later: int)
    requires Valid(db) && RoundTrips(codec, duration)
    requires now + duration <= later
    ensures var s := CreateStep(db, authorizations, ip, remoteHost, trackingCookie, Some(user),
                                now, duration, false);
      && s.result.Success?
      && (forall t :: !StoredExpired(s.db.sessions[s.result.value.sessionId], t))
      && Load(s.db, codec, lookups, GenerateCookie(codec, s.result.value), later) == Failure(SessionExpired)
  {
  }

  /** Create, invalidate, then load through the session's own cookie while the cookie's
      claim is still good: the stored end marker makes it expired. */
  lemma CreateInvalidateLoad(db: Db, codec: Codec, duration: nat, lookups: Lookups,
                             authorizations: Authorizations, ip: string, remoteHost: string,
                             trackingCookie: string, user: User, now: int, t: int, later: int)
    requires Valid(db) && RoundTrips(codec, duration)
    requires user.userId in db.users && user.userId in db.nicknames
    requires t != 1 && t <= later < now + duration
    ensures var s := CreateStep(db, authorizations, ip, remoteHost, trackingCookie, Some(user),
                                now, duration, false);
      && s.result.Success?
      && var i := InvalidateByIdStep(s.db, s.result.value.sessionId, t, false);
         && i.result.Success?
         && Load(i.db, codec, lookups, GenerateCookie(codec, s.result.value), later) == Failure(SessionExpired)
  {
  }

  /** At clock reading 1 the end marker written is 0, which reads as "unset": the session
      is not invalidated and still loads. */
  lemma InvalidateAtSecondOneRevives(db: Db, codec: Codec, lookups: Lookups, sid: SessionId,
                                     cookie: string, later: int)
    requires codec.unpack(cookie).Success?
    requires codec.unpack(cookie).value.sessionId == sid
    requires Joined(db, sid, codec.unpack(cookie).value.userId)
    requires later < codec.unpack(cookie).value.expiresAt
    ensures InvalidateByIdStep(db, sid, 1, false).result.Success?
    ensures InvalidateByIdStep(db, sid, 1, false).db.sessions[sid].endTime == 0
    ensures Load(InvalidateByIdStep(db, sid, 1, false).db, codec, lookups, cookie, later).Success?
  {
  }

  /** Invalidating an already invalidated session overwrites its end marker with the new
      clock reading, so the marker moves later rather than only ever earlier; a load from
      the second call's time on still fails. */
  lemma ReinvalidationMovesEndLater(db: Db, sid: SessionId, t1: int, t2: int, later: int)
    requires sid in db.sessions
    requires 1 < t1 < t2 <= later
    ensures var first := InvalidateByIdStep(db, sid, t1, false).db;
      var second := InvalidateByIdStep(first, sid, t2, false).db;
      && first.sessions[sid].endTime < second.sessions[sid].endTime
      && StoredExpired(second.sessions[sid], later)
  {
  }
}
