/** The session payload helpers of lib/session-utils.ts.  The clock read
    `Math.floor(Date.now() / 1000)` is the parameter `now`, in whole seconds. */
module SessionUtils {
  import opened JsText
  import opened Types

  datatype SessionPayload = SessionPayload(userId: string, email: string, username: string, iat: int, exp: int)

  /** The default lifetime of a session, one day in seconds. */
  const DefaultExpiresIn: int := 86400

  /** The part of a payload that names its user. */
  predicate SameUser(p: SessionPayload, q: SessionPayload) {
    p.userId == q.userId && p.email == q.email && p.username == q.username
  }

  /** `isSessionValid`: strictly before the expiry second. */
  predicate IsSessionValid(p: SessionPayload, now: int) {
    p.exp > now
  }

  /** `getSessionRemainingTime` */
  function GetSessionRemainingTime(p: SessionPayload, now: int): (r: nat)
    ensures r >= p.exp - now
    ensures r > 0 <==> IsSessionValid(p, now)
    ensures IsSessionValid(p, now) ==> now + r == p.exp
  {
    Max(0, p.exp - now) as nat
  }

  /** `createSessionPayload` */
  function CreateSessionPayload(user: User, now: int, expiresIn: int := DefaultExpiresIn): (p: SessionPayload)
    ensures p.userId == user.id && p.email == user.email && p.username == user.username
    ensures p.iat == now && p.exp == now + expiresIn
    ensures GetSessionRemainingTime(p, now) == Max(0, expiresIn)
  {
    SessionPayload(user.id, user.email, user.username, now, now + expiresIn)
  }

  /** `refreshSession` */
  function RefreshSession(p: SessionPayload, now: int, expiresIn: int := DefaultExpiresIn): (r: SessionPayload)
    ensures SameUser(r, p)
    ensures r.iat == now && r.exp == now + expiresIn
    ensures GetSessionRemainingTime(r, now) == Max(0, expiresIn)
  {
    p.(iat := now, exp := now + expiresIn)
  }

  /** A session made with a positive lifetime is valid when it is made and at no second from
      its expiry on. */
  lemma SessionLifetime(p: SessionPayload, now: int, expiresIn: int)
    requires expiresIn > 0
    requires p.iat == now && p.exp == now + expiresIn
    ensures IsSessionValid(p, now)
    ensures forall t | t >= p.exp :: !IsSessionValid(p, t)
    ensures forall t | now <= t < p.exp :: IsSessionValid(p, t)
  {
  }

  /** Both the created and the refreshed payload have that lifetime. */
  lemma CreatedAndRefreshedLive(user: User, p: SessionPayload, now: int, expiresIn: int)
    requires expiresIn > 0
    ensures IsSessionValid(CreateSessionPayload(user, now, expiresIn), now)
    ensures IsSessionValid(RefreshSession(p, now, expiresIn), now)
    ensures !IsSessionValid(CreateSessionPayload(user, now, expiresIn), now + expiresIn)
    ensures !IsSessionValid(RefreshSession(p, now, expiresIn), now + expiresIn)
  {
    SessionLifetime(CreateSessionPayload(user, now, expiresIn), now, expiresIn);
    SessionLifetime(RefreshSession(p, now, expiresIn), now, expiresIn);
  }

  /** Remaining time runs down one for one with the clock and stops at 0. */
  lemma RemainingTimeRunsDown(p: SessionPayload, now: int, elapsed: nat)
    ensures GetSessionRemainingTime(p, now + elapsed) == Max(0, GetSessionRemainingTime(p, now) - elapsed)
  {
  }

  /** Refreshing twice at the same second with the same lifetime is refreshing once. */
  lemma RefreshIdempotent(p: SessionPayload, now: int, expiresIn: int)
    ensures RefreshSession(RefreshSession(p, now, expiresIn), now, expiresIn) == RefreshSession(p, now, expiresIn)
  {
  }

  /** Refreshing a user's session gives the payload a fresh login at that second would. */
  lemma RefreshIsRelogin(user: User, created: int, now: int, e1: int, e2: int)
    ensures RefreshSession(CreateSessionPayload(user, created, e1), now, e2) == CreateSessionPayload(user, now, e2)
  {
  }
}
