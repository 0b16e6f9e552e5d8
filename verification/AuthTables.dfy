/**
 * The three tables AuthService works on, as sequences of rows whose position is the
 * row's autoincremented id, and the table operations the service issues on them.
 */
module AuthTables {
  import opened Common

  type Time = int    // milliseconds
  type UserId = nat
  type TokenId = nat

  datatype Role = USER | ADMIN | SUPER_ADMIN

  /** SHA-256 and bcrypt, idealised: equal digests come from equal inputs. */
  datatype Hash = Sha256(raw: string)
  datatype PasswordHash = Bcrypt(password: string)

  datatype User = User(
    email: string,
    name: Option<string>,
    password: Option<PasswordHash>,
    role: Role,
    isActive: bool,
    googleId: Option<string>,
    failedLoginAttempts: nat,
    lockedUntil: Option<Time>,
    deletedAt: Option<Time>)

  datatype RefreshToken = RefreshToken(
    tokenHash: Hash,
    userId: UserId,
    deviceInfo: string,
    expiresAt: Time,
    revokedAt: Option<Time>)

  datatype ResetToken = ResetToken(
    tokenHash: Hash,
    userId: UserId,
    expiresAt: Time,
    usedAt: Option<Time>)

  /**
   * History of one refresh token, which no operation reads: the login token its chain
   * started with, how many rotations ago that was, the token it was rotated from, and when
   * it was issued.
   */
  datatype Issue = Issue(chain: TokenId, depth: nat, parent: Option<TokenId>, at: Time)

  datatype Tables = Tables(
    now: Time,
    users: seq<User>,
    tokens: seq<RefreshToken>,
    resets: seq<ResetToken>,
    issues: seq<Issue>)

  type Db = s: Tables | |s.issues| == |s.tokens| witness Tables(0, [], [], [], [])

  datatype RawConfig = RawConfig(
    maxFailedAttempts: nat,
    lockDurationMs: nat,
    resetTtlMs: nat,
    refreshTtlMs: nat)

  /** The bounds the environment schema puts on the service's configuration. */
  type Config = c: RawConfig |
    && 3 <= c.maxFailedAttempts <= 20
    && 60_000 <= c.lockDurationMs
    && 300_000 <= c.resetTtlMs <= 86_400_000
    witness RawConfig(5, 900_000, 1_800_000, 604_800_000)

  // ----- users -----

  function FindByEmail(users: seq<User>, email: string): (r: Option<UserId>)
    ensures r.Some? ==> r.value < |users| && users[r.value].email == email && users[r.value].deletedAt.None?
    ensures r.None? ==> forall i | 0 <= i < |users| :: users[i].email == email ==> users[i].deletedAt.Some?
  {
    First(users, (user: User) => user.email == email && user.deletedAt.None?)
  }

  predicate MatchesGoogle(user: User, googleId: string, email: string) {
    user.googleId == Some(googleId) || (user.email == email && user.deletedAt.None?)
  }

  /**
   * `findFirst` without an order may return any matching row: `hint` stands for the
   * database's choice, so quantifying over hints covers every choice.
   */
  function FindForGoogle(users: seq<User>, googleId: string, email: string, hint: UserId): (r: Option<UserId>)
    ensures r.Some? ==> r.value < |users| && MatchesGoogle(users[r.value], googleId, email)
    ensures r.None? ==> forall i | 0 <= i < |users| :: !MatchesGoogle(users[i], googleId, email)
  {
    if hint < |users| && MatchesGoogle(users[hint], googleId, email) then Some(hint)
    else First(users, (user: User) => MatchesGoogle(user, googleId, email))
  }

  predicate EmailTaken(users: seq<User>, email: string) {
    exists i | 0 <= i < |users| :: users[i].email == email
  }

  predicate GoogleIdTaken(users: seq<User>, googleId: string) {
    exists i | 0 <= i < |users| :: users[i].googleId == Some(googleId)
  }

  predicate Usable(users: seq<User>, u: UserId) {
    u < |users| && users[u].deletedAt.None? && users[u].isActive
  }

  function NewUser(email: string, name: Option<string>, password: Option<PasswordHash>, googleId: Option<string>)
    : User
  {
    User(email, name, password, USER, true, googleId, 0, None, None)
  }

  // ----- refresh tokens -----

  predicate TokenTaken(tokens: seq<RefreshToken>, h: Hash) {
    exists i | 0 <= i < |tokens| :: tokens[i].tokenHash == h
  }

  function FindToken(tokens: seq<RefreshToken>, h: Hash): (r: Option<TokenId>)
    ensures r.Some? ==> r.value < |tokens| && tokens[r.value].tokenHash == h
    ensures r.None? <==> !TokenTaken(tokens, h)
  {
    First(tokens, (t: RefreshToken) => t.tokenHash == h)
  }

  /** `updateMany` setting `revokedAt` on the user's rows where it is null. */
  function RevokeUser(tokens: seq<RefreshToken>, u: UserId, now: Time): (r: seq<RefreshToken>)
    ensures |r| == |tokens|
    ensures forall i | 0 <= i < |tokens| ::
      r[i] == if tokens[i].userId == u && tokens[i].revokedAt.None?
              then tokens[i].(revokedAt := Some(now)) else tokens[i]
  {
    seq(|tokens|, i requires 0 <= i < |tokens| =>
      if tokens[i].userId == u && tokens[i].revokedAt.None? then tokens[i].(revokedAt := Some(now)) else tokens[i])
  }

  function Revoke(tokens: seq<RefreshToken>, i: TokenId, now: Time): seq<RefreshToken>
    requires i < |tokens|
  {
    tokens[i := tokens[i].(revokedAt := Some(now))]
  }

  function DeviceInfo(device: string): string {
    if |device| <= 512 then device else device[..512]
  }

  function NewToken(c: Config, now: Time, u: UserId, device: string, nonce: string): RefreshToken {
    RefreshToken(Sha256(nonce), u, DeviceInfo(device), now + c.refreshTtlMs, None)
  }

  // ----- password-reset tokens -----

  predicate ResetTaken(resets: seq<ResetToken>, h: Hash) {
    exists i | 0 <= i < |resets| :: resets[i].tokenHash == h
  }

  function FindReset(resets: seq<ResetToken>, h: Hash): (r: Option<nat>)
    ensures r.Some? ==> r.value < |resets| && resets[r.value].tokenHash == h
    ensures r.None? <==> !ResetTaken(resets, h)
  {
    First(resets, (t: ResetToken) => t.tokenHash == h)
  }
}
