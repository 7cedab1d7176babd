/** The value objects the session layer hands to its callers. */
module Domain {

  /** Session ids are assigned by the store; user ids are the store's user keys. */
  type SessionId = nat
  type UserId = nat

  datatype Option<+T> = None | Some(value: T)

  datatype UserFullName = UserFullName(forename: string, surname: string, suffix: string)

  datatype User = User(
    userId: UserId,
    username: string,
    email: string,
    name: UserFullName,
    verified: bool)

  /** Classic capability bits, endorsement category to level, and scopes. */
  datatype Authorizations = Authorizations(
    classic: int,
    endorsements: map<string, int>,
    scopes: set<string>)

  /** Times are whole epoch seconds. `ipAddress` is left unset by `create` and `load`. */
  datatype Session = Session(
    sessionId: SessionId,
    startTime: int,
    endTime: int,
    user: User,
    authorizations: Authorizations,
    ipAddress: Option<string>)
}
