/**
 * Each AuthService request as one atomic step on the tables, in the branch order of the
 * source. Random bytes, the database's choice of row and the current settings are
 * arguments of the request; a violated unique column leaves the tables as they were.
 */
module AuthSteps {
  import opened Common
  import opened AuthTables

  datatype Event =
    | Register(email: string, name: Option<string>, password: string, allowRegistration: bool)
    | Login(email: string, password: string, device: string, nonce: string)
    | Refresh(raw: string, device: string, nonce: string)
    | Logout(raw: string)
    | LogoutAll(userId: UserId)
    | GoogleLogin(googleId: string, email: string, name: Option<string>, enabled: bool,
                  device: string, nonce: string, hint: UserId)
    | ForgotPassword(email: string, nonce: string)
    | ResetPassword(raw: string, password: string)
    // the environment
    | Tick(ms: nat)
    | SetActive(userId: UserId, active: bool)
    | SoftDelete(userId: UserId)
    | SetRole(userId: UserId, role: Role)

  /** Which branch a step took, and for whom. */
  datatype Outcome =
    | UniqueViolation
    | RegistrationDisabled | Registered(u: UserId)
    | NoSuchUser | Deactivated(u: UserId) | Locked(u: UserId) | WrongPassword(u: UserId) | LoggedIn(u: UserId)
    | UnknownToken | ReuseDetected(u: UserId) | Expired(u: UserId) | UserInvalid(u: UserId) | Rotated(u: UserId)
    | NothingRevoked | LoggedOut(u: UserId) | LoggedOutAll(u: UserId)
    | GoogleDisabled | GoogleLoggedIn(u: UserId)
    | NoResetSent | ResetRequested(u: UserId)
    | ResetRefused | PasswordReset(u: UserId)
    | Happened

  datatype Result = Result(db: Db, out: Outcome)

  function Step(c: Config, s: Db, e: Event): Result {
    match e
    case Register(email, name, password, allow) => RegisterStep(s, email, name, password, allow)
    case Login(email, password, device, nonce) => LoginStep(c, s, email, password, device, nonce)
    case Refresh(raw, device, nonce) => RefreshStep(c, s, raw, device, nonce)
    case Logout(raw) => LogoutStep(s, raw)
    case LogoutAll(u) => Result(s.(tokens := RevokeUser(s.tokens, u, s.now)), LoggedOutAll(u))
    case GoogleLogin(googleId, email, name, enabled, device, nonce, hint) =>
      GoogleStep(c, s, googleId, email, name, enabled, device, nonce, hint)
    case ForgotPassword(email, nonce) => ForgotStep(c, s, email, nonce)
    case ResetPassword(raw, password) => ResetStep(s, raw, password)
    case _ => Result(Environment(s, e), Happened)
  }

  function Environment(s: Db, e: Event): Db {
    match e
    case Tick(ms) => s.(now := s.now + ms)
    case SetActive(u, active) =>
      if u < |s.users| then s.(users := s.users[u := s.users[u].(isActive := active)]) else s
    case SoftDelete(u) =>
      if u < |s.users| then s.(users := s.users[u := s.users[u].(deletedAt := Some(s.now))]) else s
    case SetRole(u, role) =>
      if u < |s.users| then s.(users := s.users[u := s.users[u].(role := role)]) else s
    case _ => s
  }

  function RegisterStep(s: Db, email: string, name: Option<string>, password: string, allow: bool): Result {
    if !allow then Result(s, RegistrationDisabled)
    else if EmailTaken(s.users, ToLower(email)) then Result(s, UniqueViolation)
    else Result(s.(users := s.users + [NewUser(ToLower(email), name, Some(Bcrypt(password)), None)]),
                Registered(|s.users|))
  }

  function ClearFailures(s: Db, u: UserId): Db
    requires u < |s.users|
  {
    s.(users := s.users[u := s.users[u].(failedLoginAttempts := 0, lockedUntil := None)])
  }

  /** The atomic increment, followed by the lock once the count reaches the maximum. */
  function RecordFailedAttempt(c: Config, s: Db, u: UserId): Db
    requires u < |s.users|
  {
    var counted := s.users[u].(failedLoginAttempts := s.users[u].failedLoginAttempts + 1);
    var updated := if counted.failedLoginAttempts >= c.maxFailedAttempts
                   then counted.(lockedUntil := Some(s.now + c.lockDurationMs)) else counted;
    s.(users := s.users[u := updated])
  }

  /** `refreshToken.create` for a session that starts a chain of its own. */
  function StartChain(c: Config, s: Db, u: UserId, device: string, nonce: string): Db {
    s.(tokens := s.tokens + [NewToken(c, s.now, u, device, nonce)],
       issues := s.issues + [Issue(|s.tokens|, 0, None, s.now)])
  }

  /** The rotation transaction: revoke the presented token and create its successor. */
  function Rotate(c: Config, s: Db, i: TokenId, u: UserId, device: string, nonce: string): Db
    requires i < |s.tokens|
  {
    s.(tokens := Revoke(s.tokens, i, s.now) + [NewToken(c, s.now, u, device, nonce)],
       issues := s.issues + [Issue(s.issues[i].chain, s.issues[i].depth + 1, Some(i), s.now)])
  }

  function LoginStep(c: Config, s: Db, email: string, password: string, device: string, nonce: string): Result {
    match FindByEmail(s.users, ToLower(email))
    case None => Result(s, NoSuchUser)
    case Some(u) =>
      var user := s.users[u];
      if !user.isActive then Result(s, Deactivated(u))
      else if user.lockedUntil.Some? && user.lockedUntil.value > s.now then Result(s, Locked(u))
      else if user.password != Some(Bcrypt(password)) then Result(RecordFailedAttempt(c, s, u), WrongPassword(u))
      else if TokenTaken(s.tokens, Sha256(nonce)) then Result(s, UniqueViolation)
      else Result(StartChain(c, ClearFailures(s, u), u, device, nonce), LoggedIn(u))
  }

  function RefreshStep(c: Config, s: Db, raw: string, device: string, nonce: string): Result {
    match FindToken(s.tokens, Sha256(raw))
    case None => Result(s, UnknownToken)
    case Some(i) =>
      var t := s.tokens[i];
      if t.revokedAt.Some? then Result(s.(tokens := RevokeUser(s.tokens, t.userId, s.now)), ReuseDetected(t.userId))
      else if t.expiresAt < s.now then Result(s.(tokens := Revoke(s.tokens, i, s.now)), Expired(t.userId))
      else if !Usable(s.users, t.userId) then Result(s, UserInvalid(t.userId))
      else if TokenTaken(s.tokens, Sha256(nonce)) then Result(s, UniqueViolation)
      else Result(Rotate(c, s, i, t.userId, device, nonce), Rotated(t.userId))
  }

  function LogoutStep(s: Db, raw: string): Result {
    match FindToken(s.tokens, Sha256(raw))
    case None => Result(s, NothingRevoked)
    case Some(i) =>
      if s.tokens[i].revokedAt.Some? then Result(s, NothingRevoked)
      else Result(s.(tokens := Revoke(s.tokens, i, s.now)), LoggedOut(s.tokens[i].userId))
  }

  /** Create, link or keep the account; None when a unique column refuses the write. */
  function GoogleAccount(s: Db, googleId: string, email: string, name: Option<string>, hint: UserId)
    : (r: Option<(Db, UserId)>)
    ensures r.Some? ==> r.value.1 < |r.value.0.users|
  {
    match FindForGoogle(s.users, googleId, ToLower(email), hint)
    case None =>
      if EmailTaken(s.users, ToLower(email)) || GoogleIdTaken(s.users, googleId) then None
      else Some((s.(users := s.users + [NewUser(ToLower(email), name, None, Some(googleId))]), |s.users|))
    case Some(u) =>
      if s.users[u].googleId == Some(googleId) then Some((s, u))
      else if GoogleIdTaken(s.users, googleId) then None
      else Some((s.(users := s.users[u := s.users[u].(googleId := Some(googleId))]), u))
  }

  function GoogleStep(c: Config, s: Db, googleId: string, email: string, name: Option<string>, enabled: bool,
                      device: string, nonce: string, hint: UserId): Result
  {
    if !enabled then Result(s, GoogleDisabled)
    else
      match GoogleAccount(s, googleId, email, name, hint)
      case None => Result(s, UniqueViolation)
      case Some((s', u)) =>
        if !s'.users[u].isActive then Result(s', Deactivated(u))
        else if TokenTaken(s'.tokens, Sha256(nonce)) then Result(s', UniqueViolation)
        else Result(StartChain(c, s', u, device, nonce), GoogleLoggedIn(u))
  }

  function ForgotStep(c: Config, s: Db, email: string, nonce: string): Result {
    match FindByEmail(s.users, ToLower(email))
    case None => Result(s, NoResetSent)
    case Some(u) =>
      if !s.users[u].isActive then Result(s, NoResetSent)
      else if ResetTaken(s.resets, Sha256(nonce)) then Result(s, UniqueViolation)
      else Result(s.(resets := s.resets + [ResetToken(Sha256(nonce), u, s.now + c.resetTtlMs, None)]),
                  ResetRequested(u))
  }

  function ResetStep(s: Db, raw: string, password: string): Result {
    match FindReset(s.resets, Sha256(raw))
    case None => Result(s, ResetRefused)
    case Some(i) =>
      var t := s.resets[i];
      if t.usedAt.Some? || t.expiresAt < s.now || !Usable(s.users, t.userId) then Result(s, ResetRefused)
      else Result(ApplyReset(s, i, password), PasswordReset(t.userId))
  }

  /** The reset transaction: new password and cleared lock, token spent, every session revoked. */
  function ApplyReset(s: Db, i: nat, password: string): Db
    requires i < |s.resets| && s.resets[i].userId < |s.users|
  {
    var u := s.resets[i].userId;
    s.(
      users := s.users[
        u := s.users[u].(password := Some(Bcrypt(password)), failedLoginAttempts := 0, lockedUntil := None)],
      resets := s.resets[i := s.resets[i].(usedAt := Some(s.now))],
      tokens := RevokeUser(s.tokens, u, s.now))
  }

  /** The tables after a whole run of steps. */
  function Run(c: Config, s: Db, es: seq<Event>): Db
    decreases |es|
  {
    if |es| == 0 then s else Run(c, Step(c, s, es[0]).db, es[1..])
  }

  /** The tables just before step `k` of a run, and the branch that step takes. */
  function At(c: Config, s: Db, es: seq<Event>, k: nat): Db
    requires k <= |es|
  {
    Run(c, s, es[..k])
  }

  function OutcomeAt(c: Config, s: Db, es: seq<Event>, k: nat): Outcome
    requires k < |es|
  {
    Step(c, At(c, s, es, k), es[k]).out
  }
}
