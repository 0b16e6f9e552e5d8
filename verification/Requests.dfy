/**
 * What each AuthService request answers and leaves behind, case by case over the fields of
 * the stored rows: when it succeeds, when it is refused and with what, and that nothing
 * else changes. No statement here mentions the branches of a step.
 */
module Requests {
  import opened Common
  import opened AuthTables
  import opened AuthSteps
  import opened AuthInvariants

  // ----- rows as a reader of the tables sees them -----

  /** Row `u` is the undeleted account with this address, however it is capitalised. */
  predicate HasAddress(s: Db, u: UserId, email: string) {
    u < |s.users| && s.users[u].email == ToLower(email) && s.users[u].deletedAt.None?
  }

  predicate HoldsToken(s: Db, i: TokenId, raw: string) {
    i < |s.tokens| && s.tokens[i].tokenHash == Sha256(raw)
  }

  predicate NewValue(s: Db, nonce: string) { forall i | 0 <= i < |s.tokens| :: !HoldsToken(s, i, nonce) }

  predicate HoldsReset(s: Db, i: nat, raw: string) {
    i < |s.resets| && s.resets[i].tokenHash == Sha256(raw)
  }

  /** One live token for `u` came last; `before` is what the older rows have become. */
  predicate TokenAdded(c: Config, now: Time, before: seq<RefreshToken>, ts: seq<RefreshToken>,
                       u: UserId, device: string, nonce: string)
  {
    && |ts| == |before| + 1 && ts[..|before|] == before
    && var t := ts[|before|];
      && t.tokenHash == Sha256(nonce) && t.userId == u && t.revokedAt.None?
      && t.expiresAt == now + c.refreshTtlMs
      && |t.deviceInfo| <= 512 && t.deviceInfo <= device
      && (|t.deviceInfo| < 512 ==> t.deviceInfo == device)
  }

  /** The live tokens of `u` were revoked at `now`, and no other row changed. */
  predicate UserRevoked(now: Time, before: seq<RefreshToken>, ts: seq<RefreshToken>, u: UserId) {
    && |ts| == |before|
    && forall i | 0 <= i < |ts| ::
         if before[i].userId == u && before[i].revokedAt.None?
         then ts[i] == RefreshToken(before[i].tokenHash, u, before[i].deviceInfo, before[i].expiresAt, Some(now))
         else ts[i] == before[i]
  }

  /** The tables differ in the token table (and its history) at most. */
  predicate SameButTokens(s: Db, s': Db) { s'.now == s.now && s'.users == s.users && s'.resets == s.resets }

  lemma FindHeld(s: Db, i: TokenId, raw: string)
    requires UniqueTokens(s.tokens) && HoldsToken(s, i, raw)
    ensures FindToken(s.tokens, Sha256(raw)) == Some(i)
  {
  }

  lemma FindNone(s: Db, raw: string)
    ensures NewValue(s, raw) <==> FindToken(s.tokens, Sha256(raw)) == None
    ensures NewValue(s, raw) <==> !TokenTaken(s.tokens, Sha256(raw))
  {
    if !NewValue(s, raw) {
      var i :| 0 <= i < |s.tokens| && HoldsToken(s, i, raw);
      assert TokenTaken(s.tokens, Sha256(raw));
    }
    if TokenTaken(s.tokens, Sha256(raw)) {
      var i :| 0 <= i < |s.tokens| && s.tokens[i].tokenHash == Sha256(raw);
      assert HoldsToken(s, i, raw);
    }
  }

  lemma FindAddress(s: Db, u: UserId, email: string)
    requires Accounts(s.users) && HasAddress(s, u, email)
    ensures FindByEmail(s.users, ToLower(email)) == Some(u)
  {
  }

  lemma FindNoAddress(s: Db, email: string)
    requires forall u: UserId :: !HasAddress(s, u, email)
    ensures FindByEmail(s.users, ToLower(email)) == None
  {
    var found := FindByEmail(s.users, ToLower(email));
    if found.Some? {
      assert HasAddress(s, found.value, email);
    }
  }

  // ----- logout -----

  /** A logout revokes the live row with the presented value, and only that; without one it changes nothing. */
  lemma LogoutEffect(c: Config, s: Db, e: Event, i: TokenId)
    requires Inv(c, s) && e.Logout?
    ensures HoldsToken(s, i, e.raw) && s.tokens[i].revokedAt.None? ==>
      Step(c, s, e) == Result(s.(tokens := s.tokens[i := s.tokens[i].(revokedAt := Some(s.now))]),
                              LoggedOut(s.tokens[i].userId))
    ensures (forall j | 0 <= j < |s.tokens| && HoldsToken(s, j, e.raw) :: s.tokens[j].revokedAt.Some?) ==>
      Step(c, s, e) == Result(s, NothingRevoked)
  {
    FindNone(s, e.raw);
    if HoldsToken(s, i, e.raw) {
      FindHeld(s, i, e.raw);
    }
  }

  lemma LogoutExactlyWhen(c: Config, s: Db, e: Event, u: UserId)
    requires Inv(c, s) && e.Logout?
    ensures Step(c, s, e).out == LoggedOut(u)
       <==> exists i | 0 <= i < |s.tokens| ::
              HoldsToken(s, i, e.raw) && s.tokens[i].userId == u && s.tokens[i].revokedAt.None?
  {
    if exists i | 0 <= i < |s.tokens| :: HoldsToken(s, i, e.raw) && s.tokens[i].revokedAt.None? {
      var i :| 0 <= i < |s.tokens| && HoldsToken(s, i, e.raw) && s.tokens[i].revokedAt.None?;
      LogoutEffect(c, s, e, i);
      forall j | 0 <= j < |s.tokens| && HoldsToken(s, j, e.raw) ensures j == i {
        FindHeld(s, i, e.raw);
        FindHeld(s, j, e.raw);
      }
    } else {
      LogoutEffect(c, s, e, 0);
    }
  }

  /** A logout-all revokes the live tokens of its user and nothing else. */
  lemma LogoutAllEffect(c: Config, s: Db, e: Event)
    requires e.LogoutAll?
    ensures var r := Step(c, s, e);
      && r.out == LoggedOutAll(e.userId) && SameButTokens(s, r.db) && r.db.issues == s.issues
      && UserRevoked(s.now, s.tokens, r.db.tokens, e.userId)
  {
  }

  /** What others do to the tables: the clock moves on, or one user row changes in one column. */
  lemma EnvironmentEffect(c: Config, s: Db, e: Event)
    requires e.Tick? || e.SetActive? || e.SoftDelete? || e.SetRole?
    ensures var s' := Step(c, s, e).db;
      && s'.tokens == s.tokens && s'.issues == s.issues && s'.resets == s.resets && |s'.users| == |s.users|
      && s'.now == s.now + (if e.Tick? then e.ms else 0)
      && forall u | 0 <= u < |s.users| ::
           if e.Tick? || e.userId != u then s'.users[u] == s.users[u]
           else if e.SetActive? then s'.users[u] == s.users[u].(isActive := e.active)
           else if e.SoftDelete? then s'.users[u] == s.users[u].(deletedAt := Some(s.now))
           else s'.users[u] == s.users[u].(role := e.role)
  {
  }

  // ----- refresh -----

  /** Every case of a refresh whose value is stored in row `i`. */
  lemma RefreshCases(c: Config, s: Db, e: Event, i: TokenId)
    requires Inv(c, s) && e.Refresh? && HoldsToken(s, i, e.raw)
    ensures var r, t := Step(c, s, e), s.tokens[i];
      var u, revoked := t.userId, s.tokens[i := t.(revokedAt := Some(s.now))];
      && u < |s.users|
      && if t.revokedAt.Some? then
           && r.out == ReuseDetected(u) && SameButTokens(s, r.db) && r.db.issues == s.issues
           && UserRevoked(s.now, s.tokens, r.db.tokens, u)
         else if t.expiresAt < s.now then r == Result(s.(tokens := revoked), Expired(u))
         else if s.users[u].deletedAt.Some? || !s.users[u].isActive then r == Result(s, UserInvalid(u))
         else if !NewValue(s, e.nonce) then r == Result(s, UniqueViolation)
         else
           && r.out == Rotated(u) && SameButTokens(s, r.db)
           && TokenAdded(c, s.now, revoked, r.db.tokens, u, e.device, e.nonce)
  {
    FindHeld(s, i, e.raw);
    FindNone(s, e.nonce);
  }

  /** A value that is not stored is refused, and that changes nothing. */
  lemma RefreshUnknown(c: Config, s: Db, e: Event)
    requires e.Refresh? && NewValue(s, e.raw)
    ensures Step(c, s, e) == Result(s, UnknownToken)
  {
    FindNone(s, e.raw);
  }

  // ----- password login -----

  /** Every case of a password login for an address that account `u` has. */
  lemma LoginCases(c: Config, s: Db, e: Event, u: UserId)
    requires Inv(c, s) && e.Login? && HasAddress(s, u, e.email)
    ensures var r, row := Step(c, s, e), s.users[u];
      var failures := row.failedLoginAttempts + 1;
      var lock := if failures >= c.maxFailedAttempts then Some(s.now + c.lockDurationMs) else row.lockedUntil;
      if !row.isActive then r == Result(s, Deactivated(u))
      else if row.lockedUntil.Some? && s.now < row.lockedUntil.value then r == Result(s, Locked(u))
      else if row.password != Some(Bcrypt(e.password)) then
        r == Result(s.(users := s.users[u := row.(failedLoginAttempts := failures, lockedUntil := lock)]),
                    WrongPassword(u))
      else if !NewValue(s, e.nonce) then r == Result(s, UniqueViolation)
      else
        && r.out == LoggedIn(u) && r.db.now == s.now && r.db.resets == s.resets
        && r.db.users == s.users[u := row.(failedLoginAttempts := 0, lockedUntil := None)]
        && TokenAdded(c, s.now, s.tokens, r.db.tokens, u, e.device, e.nonce)
  {
    FindAddress(s, u, e.email);
    FindNone(s, e.nonce);
  }

  lemma LoginUnknown(c: Config, s: Db, e: Event)
    requires e.Login? && forall u: UserId :: !HasAddress(s, u, e.email)
    ensures Step(c, s, e) == Result(s, NoSuchUser)
  {
    FindNoAddress(s, e.email);
  }

  // ----- registration -----

  /**
   * Every case of a registration: refused when switched off or when a row, deleted or not,
   * has the address; otherwise one new active, unlocked row with the given name and
   * password and the role USER.
   */
  lemma RegisterCases(c: Config, s: Db, e: Event)
    requires e.Register?
    ensures var r := Step(c, s, e);
      if !e.allowRegistration then r == Result(s, RegistrationDisabled)
      else if exists v | 0 <= v < |s.users| :: s.users[v].email == ToLower(e.email)
      then r == Result(s, UniqueViolation)
      else
        && r.out == Registered(|s.users|)
        && r.db == s.(users := s.users + [User(ToLower(e.email), e.name, Some(Bcrypt(e.password)), Role.USER,
                                               true, None, 0, None, None)])
  {
  }

  // ----- Google login -----

  /** Row `v` carries the google id, or it is the undeleted account with the address. */
  predicate MatchesProfile(s: Db, v: UserId, e: Event)
    requires e.GoogleLogin?
  {
    v < |s.users| && (s.users[v].googleId == Some(e.googleId) || HasAddress(s, v, e.email))
  }

  /** What follows once the account is settled: the tables are then those of `s`. */
  predicate IssuesFor(c: Config, s: Db, u: UserId, e: Event, r: Result)
    requires e.GoogleLogin? && u < |s.users|
  {
    if !s.users[u].isActive then r == Result(s, Deactivated(u))
    else if !NewValue(s, e.nonce) then r == Result(s, UniqueViolation)
    else
      && r.out == GoogleLoggedIn(u) && SameButTokens(s, r.db)
      && TokenAdded(c, s.now, s.tokens, r.db.tokens, u, e.device, e.nonce)
  }

  lemma GoogleDisabledChangesNothing(c: Config, s: Db, e: Event)
    requires e.GoogleLogin? && !e.enabled
    ensures Step(c, s, e) == Result(s, GoogleDisabled)
  {
  }

  /**
   * A profile that matches no row gets a new active account without a password, unless a
   * deleted row still has the address.
   */
  lemma GoogleCreates(c: Config, s: Db, e: Event)
    requires Inv(c, s) && e.GoogleLogin? && e.enabled && forall v: UserId :: !MatchesProfile(s, v, e)
    ensures var r := Step(c, s, e);
      var created := User(ToLower(e.email), e.name, None, Role.USER, true, Some(e.googleId), 0, None, None);
      if exists v | 0 <= v < |s.users| :: s.users[v].email == ToLower(e.email)
      then r == Result(s, UniqueViolation)
      else IssuesFor(c, s.(users := s.users + [created]), |s.users|, e, r)
  {
    var found := FindForGoogle(s.users, e.googleId, ToLower(e.email), e.hint);
    assert found.Some? ==> MatchesProfile(s, found.value, e);
    assert !GoogleIdTaken(s.users, e.googleId);
    var created := NewUser(ToLower(e.email), e.name, None, Some(e.googleId));
    FindNone(s.(users := s.users + [created]), e.nonce);
  }

  /**
   * A profile that matches a row is logged in to a matching row, any one the database may
   * choose, after the google id was written to it if it had another. The unique column
   * refuses that when a second row has the google id.
   */
  lemma GoogleUses(c: Config, s: Db, e: Event, v: UserId) returns (u: UserId)
    requires Inv(c, s) && e.GoogleLogin? && e.enabled && MatchesProfile(s, v, e)
    ensures MatchesProfile(s, u, e) && (e.hint == v ==> u == v)
    ensures var r, row := Step(c, s, e), s.users[u];
      if row.googleId == Some(e.googleId) then IssuesFor(c, s, u, e, r)
      else if exists w | 0 <= w < |s.users| :: s.users[w].googleId == Some(e.googleId)
      then r == Result(s, UniqueViolation)
      else IssuesFor(c, s.(users := s.users[u := row.(googleId := Some(e.googleId))]), u, e, r)
  {
    var found := FindForGoogle(s.users, e.googleId, ToLower(e.email), e.hint);
    assert MatchesGoogle(s.users[v], e.googleId, ToLower(e.email));
    u := found.value;
    var linked := s.(users := s.users[u := s.users[u].(googleId := Some(e.googleId))]);
    FindNone(s, e.nonce);
    FindNone(linked, e.nonce);
  }

  // ----- forgot password -----

  /** Row `u` may ask for a reset with this random value. */
  predicate MayRequest(s: Db, u: UserId, e: Event)
    requires e.ForgotPassword?
  {
    HasAddress(s, u, e.email) && s.users[u].isActive && forall i | 0 <= i < |s.resets| :: !HoldsReset(s, i, e.nonce)
  }

  /** Exactly when a reset token is created, with the row; in every other case nothing changes. */
  lemma ForgotExactlyWhen(c: Config, s: Db, e: Event, u: UserId)
    requires Inv(c, s) && e.ForgotPassword?
    ensures Step(c, s, e).out == ResetRequested(u) <==> MayRequest(s, u, e)
    ensures MayRequest(s, u, e) ==>
      Step(c, s, e).db == s.(resets := s.resets + [ResetToken(Sha256(e.nonce), u, s.now + c.resetTtlMs, None)])
    ensures (forall v: UserId :: !MayRequest(s, v, e)) ==>
      && Step(c, s, e).db == s
      && (Step(c, s, e).out == UniqueViolation || Step(c, s, e).out == NoResetSent)
    ensures (forall v: UserId :: HasAddress(s, v, e.email) ==> !s.users[v].isActive) ==>
      Step(c, s, e) == Result(s, NoResetSent)
  {
    var found := FindByEmail(s.users, ToLower(e.email));
    if HasAddress(s, u, e.email) {
      FindAddress(s, u, e.email);
    }
    if found.Some? {
      assert HasAddress(s, found.value, e.email);
    }
    ResetIsNew(s, e.nonce);
    assert found.Some? && s.users[found.value].isActive && !ResetTaken(s.resets, Sha256(e.nonce)) ==>
      MayRequest(s, found.value, e);
  }

  lemma ResetIsNew(s: Db, nonce: string)
    ensures ResetTaken(s.resets, Sha256(nonce)) <==> exists i | 0 <= i < |s.resets| :: HoldsReset(s, i, nonce)
  {
    if exists i | 0 <= i < |s.resets| :: HoldsReset(s, i, nonce) {
      var i :| 0 <= i < |s.resets| && HoldsReset(s, i, nonce);
      assert s.resets[i].tokenHash == Sha256(nonce);
    }
    if ResetTaken(s.resets, Sha256(nonce)) {
      var i :| 0 <= i < |s.resets| && s.resets[i].tokenHash == Sha256(nonce);
      assert HoldsReset(s, i, nonce);
    }
  }

  // ----- password reset -----

  /** Row `i` is an unspent, unexpired reset token with this value, of an active, undeleted account. */
  predicate MayReset(s: Db, i: nat, raw: string) {
    && HoldsReset(s, i, raw) && s.resets[i].usedAt.None? && s.now <= s.resets[i].expiresAt
    && s.resets[i].userId < |s.users|
    && s.users[s.resets[i].userId].isActive && s.users[s.resets[i].userId].deletedAt.None?
  }

  /**
   * A reset with such a token changes one user row, spends the token and revokes the user's
   * sessions; any other changes nothing.
   */
  lemma ResetCases(c: Config, s: Db, e: Event, i: nat)
    requires Inv(c, s) && e.ResetPassword?
    ensures MayReset(s, i, e.raw) ==>
      var r, u := Step(c, s, e), s.resets[i].userId;
      && r.out == PasswordReset(u) && r.db.now == s.now && r.db.issues == s.issues
      && r.db.users == s.users[u := s.users[u].(password := Some(Bcrypt(e.password)),
                                                failedLoginAttempts := 0, lockedUntil := None)]
      && r.db.resets == s.resets[i := s.resets[i].(usedAt := Some(s.now))]
      && UserRevoked(s.now, s.tokens, r.db.tokens, u)
    ensures (forall j | 0 <= j < |s.resets| :: !MayReset(s, j, e.raw)) ==> Step(c, s, e) == Result(s, ResetRefused)
  {
    var found := FindReset(s.resets, Sha256(e.raw));
    if HoldsReset(s, i, e.raw) {
      ResetIsNew(s, e.raw);
      assert found == Some(i);
    }
    if found.Some? {
      assert HoldsReset(s, found.value, e.raw);
      var row := s.resets[found.value];
      assert Usable(s.users, row.userId) && row.usedAt.None? && s.now <= row.expiresAt ==>
        MayReset(s, found.value, e.raw);
    }
  }

  lemma ResetExactlyWhen(c: Config, s: Db, e: Event, u: UserId)
    requires Inv(c, s) && e.ResetPassword?
    ensures Step(c, s, e).out == PasswordReset(u)
       <==> exists i | 0 <= i < |s.resets| :: MayReset(s, i, e.raw) && s.resets[i].userId == u
  {
    if exists i | 0 <= i < |s.resets| :: MayReset(s, i, e.raw) {
      var i :| 0 <= i < |s.resets| && MayReset(s, i, e.raw);
      ResetCases(c, s, e, i);
      forall j | 0 <= j < |s.resets| && MayReset(s, j, e.raw) ensures j == i {
      }
    } else {
      ResetCases(c, s, e, 0);
    }
  }
}
