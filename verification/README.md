# Legacy session lifecycle, modelled in Dafny

This project models the legacy (classic) session layer of the arXiv accounts system,
`users/arxiv/users/legacy/sessions.py`. That layer issues, loads and invalidates login
sessions kept in the legacy session tables. A session is a row keyed by a store-assigned id.
Its `end_time` of `0` means "no end set". Each new session also gets one audit row.

- `load` decodes the cookie. It then rejects on the expiry the cookie claims, before any row
  is read. Next it joins session, user and nickname rows by (session id, user id). Last it
  applies the stored check: expired when `end_time != 0 and end_time < now`.
- `create` writes one session row (`end_time = 0`, start and last-reissue at the current
  time) and one audit row linked to it. It returns a session ending one configured duration
  after its start.
- `invalidate_by_id` sets the row's `end_time` to one second before now.
- `invalidate` decodes a cookie first. A cookie that does not decode becomes `UnknownSession`.
- `generate_cookie` packs a session back into cookie form.

Layout:

- `exceptions.dfy`: the failure kinds (`InvalidCookie`, `UnknownSession`, `SessionExpired`,
  `SessionCreationFailed`, `IOError`) and `Result`.
- `domain.dfy`: the value objects `User`, `Authorizations` and `Session`.
- `cookies.dfy`: the codec, kept abstract as a pair of functions (`pack`, `unpack`).
  `RoundTrips(codec, duration)` states the codec's own round-trip promise, where `duration`
  is the configured session duration. It is a hypothesis of the lemmas that need it. The
  duration is one setting: the same value is given to `create` and to the round trip.
- `models.dfy`: the table rows and the whole store as one value `Db`. Also the store
  invariant `Valid` and the stored expiry test `StoredExpired`.
- `sessions.dfy`: `Load` and `GenerateCookie` as functions of the tables. `CreateStep`,
  `InvalidateByIdStep` and `InvalidateStep` are the step functions of the state machine.
  The class `SessionStore` holds the tables as fields. Its methods `Create`,
  `InvalidateById` and `Invalidate` update those fields in place, and each is proved
  against its step function.
- `lifecycle.dfy`: traces of state-changing calls (`Run`) and lemmas that relate
  operations. These cover create-then-load, invalidation being permanent, and history
  being append-only.

Clock readings, the collaborators that rebuild authorizations (`compute_capabilities`,
`get_endorsements`, `get_scopes`) and store faults are parameters. Time is whole epoch
seconds.

### Behaviour of the code worth knowing

- `load`'s docstring (users/arxiv/users/legacy/sessions.py:59-62) lists only `SessionExpired`
  and `UnknownSession`. Yet the `InvalidCookie` raised by `cookies.unpack` at line 65 escapes
  `load` unhandled. Only `invalidate` (lines 203-206) turns it into `UnknownSession`.
- `create` stores `end_time = 0` (line 151). So the stored check at line 88 never expires a
  session that was not invalidated. Such a session expires only through the end its cookie
  claims (issue time plus duration), checked at line 69. See
  `Lifecycle.CreatedSessionExpiresByClaim`.
- The claim check at line 69 rejects at `expires_at <= now`. The stored check at line 88
  rejects only at `end_time < now`, so a row whose end equals now still loads.
- Line 231 writes `now - 1` whatever the row held before. Invalidating twice therefore moves
  the end marker later, not earlier. A load after the second call still fails. See
  `Lifecycle.ReinvalidationMovesEndLater`.
- At clock reading `1`, line 231 writes `0`, which line 88 reads as "unset". The session is
  then not invalidated. See `Lifecycle.InvalidateAtSecondOneRevives`.

## Model

| member | source | states |
|---|---|---|
| `Sessions.LoadRow` | users/arxiv/users/legacy/sessions.py:34-43 | the row is returned exactly when a row with that id exists; otherwise `UnknownSession` |
| `Sessions.Load` | users/arxiv/users/legacy/sessions.py:46-115 | a decoding failure escapes unchanged. A claimed expiry `<= now` gives `SessionExpired` whatever the store holds. `UnknownSession` exactly when a decoded, unexpired cookie's join fails: no row for the id, a row owned by another user, no user row, or no nickname. `SessionExpired` exactly when the claim has passed or the joined row's end is set and before now, so an end of 0 never expires. On success: the store's id, the cookie's user id, the cookie's issue and expiry times (not the row's), and the user and authorizations rebuilt from the rows. The store is only read |
| `Sessions.GenerateCookie` | users/arxiv/users/legacy/sessions.py:171-185 | for every configured duration under which the codec keeps its round-trip promise, the generated cookie decodes to the session's id, user id, address, start time and capabilities, with expiry = start + that duration |
| `Sessions.CreateStep` | users/arxiv/users/legacy/sessions.py:118-168 | success exactly when a user is given and the store does not fault. A missing user or a fault gives `SessionCreationFailed` and leaves every table unchanged. On success the id is fresh, exactly one session row is added (owner = user, `end_time` 0, start = last reissue = now), and no other row changes. Exactly one audit row is appended, linked to it and carrying ip, host and tracking cookie. The returned session ends one duration after now. The store invariant is kept |
| `Sessions.InvalidateByIdStep` | users/arxiv/users/legacy/sessions.py:211-236 | a store fault anywhere in the transaction, the row lookup included, gives `IOError`. Without a fault, an unknown id gives `UnknownSession`. In both cases nothing changes. Otherwise only that row's `end_time` changes, to `now - 1`. All other rows, every audit row, the user and nickname rows and the id counter are untouched. Unless now is 1, the row reads as expired at every time from now on. The store invariant is kept |
| `Sessions.InvalidateStep` | users/arxiv/users/legacy/sessions.py:188-208 | `InvalidCookie` from decoding becomes `UnknownSession` with no change. Any other decoding failure propagates. A decoded cookie delegates to invalidation by the decoded session id |
| `Sessions.SessionStore.Create` | users/arxiv/users/legacy/sessions.py:139-166 | updates the session, audit and counter fields in place. Its new tables and result are those `CreateStep` gives for the old tables, and the invariant is kept |
| `Sessions.SessionStore.InvalidateById` | users/arxiv/users/legacy/sessions.py:226-236 | fails with `IOError` on a store fault, otherwise looks the row up and overwrites its end marker in place. Its new tables and result are those `InvalidateByIdStep` gives, and the invariant is kept |
| `Sessions.SessionStore.Invalidate` | users/arxiv/users/legacy/sessions.py:203-208 | decodes, maps `InvalidCookie` to `UnknownSession`, and otherwise calls `InvalidateById`. New tables and result are those `InvalidateStep` gives |
| `Lifecycle.Run` | users/arxiv/users/legacy/sessions.py:146-160 | any sequence of create and invalidate calls keeps the store invariant: ids below the counter, audit rows one to one with session rows |
| `Lifecycle.RunKeepsHistory` | users/arxiv/users/legacy/sessions.py:147-159 | over any sequence of calls, session rows are never deleted and never change owner or start time. Audit rows only grow at the end (write-once). The id counter never goes back, so ids are not reused. User and nickname rows are untouched |
| `Lifecycle.RunKeepsExpired` | users/arxiv/users/legacy/sessions.py:88 | a row that reads as expired at a time T stays expired after any calls made no later than T (none at clock reading 1) |
| `Lifecycle.InvalidatedSessionNeverLoads` | users/arxiv/users/legacy/sessions.py:226-232 | after a successful invalidation at t (t != 1) and any later creations or invalidations, every cookie naming that session fails to load at any time from t on, with `SessionExpired` or `UnknownSession`. This covers invalidating twice |
| `Lifecycle.CreateThenLoad` | users/arxiv/users/legacy/sessions.py:143-166 | a created session, loaded through its own generated cookie at any time before start + duration, succeeds. It carries the created id, the user's id, start = creation time and end = start + duration (when the user has user and nickname rows) |
| `Lifecycle.CreatedSessionExpiresByClaim` | users/arxiv/users/legacy/sessions.py:65-70 | a created session's stored row never reads as expired. Its own cookie loaded at start + duration or later gives `SessionExpired` from the claim alone |
| `Lifecycle.CreateInvalidateLoad` | users/arxiv/users/legacy/sessions.py:87-90 | create, invalidate at t (t != 1), then load the session's own cookie at a time from t on while its claim is still good: the result is `SessionExpired` from the stored check |
| `Lifecycle.InvalidateAtSecondOneRevives` | users/arxiv/users/legacy/sessions.py:231 | invalidation at clock reading 1 writes 0, and the session still loads while its cookie's claim is good |
| `Lifecycle.ReinvalidationMovesEndLater` | users/arxiv/users/legacy/sessions.py:231 | a second invalidation at a later time moves the end marker later. A load from the second call's time on still reads it as expired |

## Left out

- Cookie byte format, base64 and digest: the `cookies` module is not part of this model. The codec is two function values plus the configured duration. Its round trip is a hypothesis (`RoundTrips`), not a proof.
- Transactions (`util.transaction`, commit and rollback): each public call is one atomic step on the tables. A store fault anywhere in a transaction is the `fault` flag. A faulting `create` or `invalidate_by_id` leaves no row changed. A fault while `load` reads is not modelled; the source has no handler for it there.
- Only the kind of each exception is modelled, not its message or cause chain. `SessionDeletionFailed` is imported by the source but never raised.
- Time zones, `datetime` and `timedelta`: times are whole epoch seconds. `load` reads one clock for both its checks; the source reads a zoned clock for the claim check and `util.now()` for the stored check. The fractional seconds of `total_seconds()` in `invalidate_by_id` are not modelled.
- `str()` conversions of ids: session and user ids are naturals throughout, and the conversions are identities.
- The nickname join returns the first matching nickname row. The model keeps one nickname per user.
- `compute_capabilities`, `get_endorsements` and `get_scopes` are foreign lookups, modelled as function values in `Lookups`.
- `create` stores the given user id without checking that a user row exists. A store-level refusal of that row is a `fault`.
- The session's `ip_address` is set by neither `create` nor `load`. It is modelled as unset (`None`), and that is what `generate_cookie` then packs.
- Logging, concurrency between requests, and the engine and session-maker setup are not modelled.
- `accounts/accounts/services/users.py`: module aliases and `create_all`, which seeds policy-class rows. These are plumbing and schema bootstrap with no session logic.
