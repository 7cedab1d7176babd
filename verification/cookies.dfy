/** The legacy cookie codec, kept abstract: its byte format and signature are not part of
    this model. A codec is a pair of functions; `unpack` derives the expiry it reports from
    the configured session duration. */
module Cookies {
  import opened Domain
  import opened Exceptions

  /** What `pack` receives: session id, user id, client IP, issue time, capabilities. */
  datatype PackArgs = PackArgs(
    sessionId: SessionId,
    userId: UserId,
    ip: Option<string>,
    issuedAt: int,
    capabilities: int)

  /** What a successful `unpack` yields. */
  datatype CookieFields = CookieFields(
    sessionId: SessionId,
    userId: UserId,
    ip: Option<string>,
    issuedAt: int,
    expiresAt: int,
    capabilities: int)

  datatype Codec = Codec(
    pack: PackArgs -> string,
    unpack: string -> Result<CookieFields>)

  /** The codec's own promise: unpacking a packed cookie gives back what was packed, with
      the expiry computed as issue time plus the configured session duration. */
  ghost predicate RoundTrips(codec: Codec, duration: nat)
  {
    forall a: PackArgs :: codec.unpack(codec.pack(a)) ==
      Success(CookieFields(a.sessionId, a.userId, a.ip, a.issuedAt,
                           a.issuedAt + duration, a.capabilities))
  }
}
