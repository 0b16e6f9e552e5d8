/**
 * AuthService itself: tables updated in place, one method per request. Every method is
 * proved to do what the atomic step does, so the history of calls on a service is a run
 * of AuthSteps and the theorems about runs hold of it.
 */
module AuthServices {
  import opened Common
  import opened AuthTables
  import opened AuthSteps
  import AuthInvariants
  import Durations
  import Sessions

  class AuthService {
    const config: Config
    const refreshExpiresIn: string

    var now: Time
    var users: seq<User>
    var refreshTokens: seq<RefreshToken>
    var passwordResetTokens: seq<ResetToken>

    ghost const origin: Db
    ghost var issues: seq<Issue>
    ghost var history: seq<Event>

    ghost predicate Consistent()
      reads this
    {
      && |issues| == |refreshTokens|
      && Durations.WellFormed(refreshExpiresIn)
      && Durations.ParseMaxAgeMs(refreshExpiresIn) == Some(config.refreshTtlMs)
    }

    ghost function State(): Db
      requires Consistent()
      reads this
    {
      Tables(now, users, refreshTokens, passwordResetTokens, issues)
    }

    /** The tables are what the calls so far make of the tables the service was opened on. */
    ghost predicate Valid()
      reads this
    {
      Consistent() && AuthInvariants.Inv(config, origin) && State() == Run(config, origin, history)
    }

    ghost function Expected(e: Event): Result
      requires Consistent()
      reads this
    {
      Step(config, State(), e)
    }

    /** The service may be opened on any tables that satisfy the invariant, the empty ones among them. */
    constructor (config: Config, refreshExpiresIn: string, tables: Db)
      requires Durations.WellFormed(refreshExpiresIn)
      requires Durations.ParseMaxAgeMs(refreshExpiresIn) == Some(config.refreshTtlMs)
      requires AuthInvariants.Inv(config, tables)
      ensures Valid() && history == [] && origin == tables && State() == tables && this.config == config
    {
      this.config, this.refreshExpiresIn, this.origin := config, refreshExpiresIn, tables;
      now, users, refreshTokens, passwordResetTokens := tables.now, tables.users, tables.tokens, tables.resets;
      issues, history := tables.issues, [];
    }

    /** The invariant of runs holds of every service object. */
    lemma KeepsInvariant()
      requires Valid()
      ensures AuthInvariants.Inv(config, State())
    {
      Sessions.RunInv(config, origin, history);
    }

    /** In every service object an unrevoked token is the newest of its chain and the only one. */
    lemma OneLiveTokenPerChain(i: TokenId, j: TokenId)
      requires Valid() && i < |refreshTokens| && j < |refreshTokens| && issues[i].chain == issues[j].chain
      requires refreshTokens[i].revokedAt.None?
      ensures j <= i && (j != i ==> refreshTokens[j].revokedAt.Some?)
    {
      Sessions.OneLiveTipPerChain(config, origin, history, i, j);
    }

    /** The tables after call `k`, from which the later calls lead to the present ones. */
    lemma Since(k: nat)
      requires Valid() && k < |history|
      ensures AuthInvariants.Inv(config, At(config, origin, history, k))
      ensures At(config, origin, history, k + 1) == Step(config, At(config, origin, history, k), history[k]).db
      ensures State() == Run(config, At(config, origin, history, k + 1), history[k + 1..])
    {
      Sessions.AtInv(config, origin, history, k, k);
      Sessions.RunNext(config, origin, history, k);
      Sessions.RunSplit(config, origin, history, k + 1);
    }

    /** A token that call `k` accepted is recognised as replayed by the next call that presents it. */
    lemma ReplayIsDetected(k: nat, device: string, nonce: string)
      requires Valid() && k < |history| && history[k].Refresh?
      requires OutcomeAt(config, origin, history, k).Rotated?
      ensures var r := Expected(Event.Refresh(history[k].raw, device, nonce));
        var u := OutcomeAt(config, origin, history, k).u;
        && r.out == ReuseDetected(u) && |r.db.tokens| == |refreshTokens| && Sessions.AllRevoked(r.db.tokens, u)
        && forall i | 0 <= i < |refreshTokens| && refreshTokens[i].userId != u :: r.db.tokens[i] == refreshTokens[i]
    {
      Since(k);
      var before, e := At(config, origin, history, k), Event.Refresh(history[k].raw, device, nonce);
      Sessions.ReuseEndsEverySession(config, before, history[k], history[k + 1..], e);
    }

    /** A token of `u` from before call `k`, which revoked all of them, is not live now. */
    lemma RevokedForGood(k: nat, u: UserId, i: TokenId)
      requires Valid() && k < |history| && Sessions.IsMassRevocation(OutcomeAt(config, origin, history, k), u)
      requires i < |At(config, origin, history, k).tokens| && At(config, origin, history, k).tokens[i].userId == u
      ensures i < |refreshTokens| && refreshTokens[i].userId == u && refreshTokens[i].revokedAt.Some?
    {
      Since(k);
      var before, s := At(config, origin, history, k), At(config, origin, history, k + 1);
      Sessions.AtInv(config, origin, history, k, k + 1);
      Sessions.MassRevocation(config, before, history[k], u);
      Sessions.RunInv(config, s, history[k + 1..]);
      AuthInvariants.OldRows(before, s, i);
      AuthInvariants.OldRows(s, State(), i);
    }

    ghost method Record(e: Event, before: Db)
      requires Consistent() && AuthInvariants.Inv(config, origin)
      requires before == Run(config, origin, history)
      requires State() == Step(config, before, e).db
      modifies this`history
      ensures Valid() && history == old(history) + [e]
    {
      var all := history + [e];
      Sessions.RunNext(config, origin, all, |history|);
      assert all[..|history|] == history && all[..|all|] == all;
      history := all;
    }

    method Register(email: string, name: Option<string>, password: string, allowRegistration: bool)
      returns (out: Outcome)
      requires Valid()
      modifies this
      ensures Valid()
      ensures Result(State(), out) == old(Expected(Event.Register(email, name, password, allowRegistration)))
      ensures history == old(history) + [Event.Register(email, name, password, allowRegistration)]
    {
      if !allowRegistration {
        out := RegistrationDisabled;
      } else if EmailTaken(users, ToLower(email)) {
        out := UniqueViolation;
      } else {
        users := users + [NewUser(ToLower(email), name, Some(Bcrypt(password)), None)];
        out := Registered(|users| - 1);
      }
      Record(Event.Register(email, name, password, allowRegistration), old(State()));
    }

    /** `this.parseExpiry(this.refreshExpiresIn)`. */
    function RefreshExpiry(): (r: Time)
      requires Durations.WellFormed(refreshExpiresIn)
      requires Durations.ParseMaxAgeMs(refreshExpiresIn) == Some(config.refreshTtlMs)
      reads this
      ensures r == now + config.refreshTtlMs
    {
      Durations.ParsersAgree(now, refreshExpiresIn);
      Durations.ParseExpiry(now, refreshExpiresIn).value
    }

    /** `refreshToken.create`, refused when the hash is taken. */
    method CreateRefreshToken(u: UserId, device: string, nonce: string) returns (created: bool)
      requires Consistent()
      modifies this`refreshTokens, this`issues
      ensures Consistent() && created == !TokenTaken(old(refreshTokens), Sha256(nonce))
      ensures State() == if created then StartChain(config, old(State()), u, device, nonce) else old(State())
    {
      created := !TokenTaken(refreshTokens, Sha256(nonce));
      if created {
        issues := issues + [Issue(|refreshTokens|, 0, None, now)];
        refreshTokens := refreshTokens + [RefreshToken(Sha256(nonce), u, DeviceInfo(device), RefreshExpiry(), None)];
      }
    }

    /** The rotation transaction. */
    method RotateToken(i: TokenId, u: UserId, device: string, nonce: string)
      requires Consistent() && i < |refreshTokens|
      modifies this`refreshTokens, this`issues
      ensures Consistent() && State() == Rotate(config, old(State()), i, u, device, nonce)
    {
      issues := issues + [Issue(issues[i].chain, issues[i].depth + 1, Some(i), now)];
      refreshTokens := Revoke(refreshTokens, i, now);
      refreshTokens := refreshTokens + [RefreshToken(Sha256(nonce), u, DeviceInfo(device), RefreshExpiry(), None)];
    }

    method RecordFailedAttempt(u: UserId)
      requires Consistent() && u < |users|
      modifies this`users
      ensures Consistent() && State() == AuthSteps.RecordFailedAttempt(config, old(State()), u)
    {
      var n := users[u].failedLoginAttempts + 1;
      users := users[u := users[u].(failedLoginAttempts := n)];
      if n >= config.maxFailedAttempts {
        users := users[u := users[u].(lockedUntil := Some(now + config.lockDurationMs))];
      }
    }

    method Login(email: string, password: string, device: string, nonce: string) returns (out: Outcome)
      requires Valid()
      modifies this
      ensures Valid() && Result(State(), out) == old(Expected(Event.Login(email, password, device, nonce)))
      ensures history == old(history) + [Event.Login(email, password, device, nonce)]
    {
      var found := FindByEmail(users, ToLower(email));
      if found.None? {
        out := NoSuchUser;
      } else {
        var u := found.value;
        var user := users[u];
        if !user.isActive {
          out := Deactivated(u);
        } else if user.lockedUntil.Some? && user.lockedUntil.value > now {
          out := Locked(u);
        } else if user.password != Some(Bcrypt(password)) {
          RecordFailedAttempt(u);
          out := WrongPassword(u);
        } else if TokenTaken(refreshTokens, Sha256(nonce)) {
          // the transaction rolls back
          out := UniqueViolation;
        } else {
          users := users[u := users[u].(failedLoginAttempts := 0, lockedUntil := None)];
          var created := CreateRefreshToken(u, device, nonce);
          out := LoggedIn(u);
        }
      }
      Record(Event.Login(email, password, device, nonce), old(State()));
    }

    method Refresh(raw: string, device: string, nonce: string) returns (out: Outcome)
      requires Valid()
      modifies this
      ensures Valid() && Result(State(), out) == old(Expected(Event.Refresh(raw, device, nonce)))
      ensures history == old(history) + [Event.Refresh(raw, device, nonce)]
    {
      var found := FindToken(refreshTokens, Sha256(raw));
      if found.None? {
        out := UnknownToken;
      } else {
        var i := found.value;
        var storedToken := refreshTokens[i];
        var u := storedToken.userId;
        if storedToken.revokedAt.Some? {
          refreshTokens := RevokeUser(refreshTokens, u, now);
          out := ReuseDetected(u);
        } else if storedToken.expiresAt < now {
          refreshTokens := Revoke(refreshTokens, i, now);
          out := Expired(u);
        } else if !Usable(users, u) {
          out := UserInvalid(u);
        } else if TokenTaken(refreshTokens, Sha256(nonce)) {
          out := UniqueViolation;
        } else {
          RotateToken(i, u, device, nonce);
          out := Rotated(u);
        }
      }
      Record(Event.Refresh(raw, device, nonce), old(State()));
    }

    method Logout(raw: string) returns (out: Outcome)
      requires Valid()
      modifies this
      ensures Valid() && Result(State(), out) == old(Expected(Event.Logout(raw)))
      ensures history == old(history) + [Event.Logout(raw)]
    {
      var found := FindToken(refreshTokens, Sha256(raw));
      if found.Some? && refreshTokens[found.value].revokedAt.None? {
        out := LoggedOut(refreshTokens[found.value].userId);
        refreshTokens := Revoke(refreshTokens, found.value, now);
      } else {
        out := NothingRevoked;
      }
      Record(Event.Logout(raw), old(State()));
    }

    method LogoutAll(userId: UserId) returns (out: Outcome)
      requires Valid()
      modifies this
      ensures Valid() && Result(State(), out) == old(Expected(Event.LogoutAll(userId)))
      ensures history == old(history) + [Event.LogoutAll(userId)]
    {
      refreshTokens := RevokeUser(refreshTokens, userId, now);
      out := LoggedOutAll(userId);
      Record(Event.LogoutAll(userId), old(State()));
    }

    method GoogleLogin(googleId: string, email: string, name: Option<string>, enabled: bool,
                       device: string, nonce: string, hint: UserId) returns (out: Outcome)
      requires Valid()
      modifies this
      ensures Valid()
      ensures Result(State(), out)
           == old(Expected(Event.GoogleLogin(googleId, email, name, enabled, device, nonce, hint)))
      ensures history == old(history) + [Event.GoogleLogin(googleId, email, name, enabled, device, nonce, hint)]
    {
      if !enabled {
        out := GoogleDisabled;
      } else {
        var account := SettleAccount(googleId, email, name, hint);
        if account.None? {
          out := UniqueViolation;
        } else {
          out := IssueForGoogle(account.value, device, nonce);
        }
      }
      Record(Event.GoogleLogin(googleId, email, name, enabled, device, nonce, hint), old(State()));
    }

    /** Create, link or keep the account; None when a unique column refuses the write. */
    method SettleAccount(googleId: string, email: string, name: Option<string>, hint: UserId)
      returns (account: Option<UserId>)
      requires Consistent()
      modifies this`users
      ensures Consistent() && (account.Some? ==> account.value < |users|)
      ensures match GoogleAccount(old(State()), googleId, email, name, hint)
              case None => account.None? && State() == old(State())
              case Some((s, u)) => account == Some(u) && State() == s
    {
      account := FindForGoogle(users, googleId, ToLower(email), hint);
      var refused := GoogleIdTaken(users, googleId);
      if account.None? {
        if !refused && !EmailTaken(users, ToLower(email)) {
          account := Some(|users|);
          users := users + [NewUser(ToLower(email), name, None, Some(googleId))];
        }
      } else if users[account.value].googleId != Some(googleId) {
        if refused {
          account := None;
        } else {
          users := users[account.value := users[account.value].(googleId := Some(googleId))];
        }
      }
    }

    /** The part of Google login after the account is settled. */
    method IssueForGoogle(u: UserId, device: string, nonce: string) returns (out: Outcome)
      requires Consistent() && u < |users|
      modifies this`refreshTokens, this`issues
      ensures Consistent()
      ensures Result(State(), out) ==
        if !users[u].isActive then Result(old(State()), Deactivated(u))
        else if TokenTaken(old(refreshTokens), Sha256(nonce)) then Result(old(State()), UniqueViolation)
        else Result(StartChain(config, old(State()), u, device, nonce), GoogleLoggedIn(u))
    {
      if !users[u].isActive {
        out := Deactivated(u);
      } else {
        var created := CreateRefreshToken(u, device, nonce);
        out := if created then GoogleLoggedIn(u) else UniqueViolation;
      }
    }

    method ForgotPassword(email: string, nonce: string) returns (out: Outcome)
      requires Valid()
      modifies this
      ensures Valid() && Result(State(), out) == old(Expected(Event.ForgotPassword(email, nonce)))
      ensures history == old(history) + [Event.ForgotPassword(email, nonce)]
    {
      var found := FindByEmail(users, ToLower(email));
      if found.None? || !users[found.value].isActive {
        out := NoResetSent;
      } else if ResetTaken(passwordResetTokens, Sha256(nonce)) {
        out := UniqueViolation;
      } else {
        var expiresAt := now + config.resetTtlMs;
        passwordResetTokens := passwordResetTokens + [ResetToken(Sha256(nonce), found.value, expiresAt, None)];
        out := ResetRequested(found.value);
      }
      Record(Event.ForgotPassword(email, nonce), old(State()));
    }

    method ResetPassword(raw: string, password: string) returns (out: Outcome)
      requires Valid()
      modifies this
      ensures Valid() && Result(State(), out) == old(Expected(Event.ResetPassword(raw, password)))
      ensures history == old(history) + [Event.ResetPassword(raw, password)]
    {
      var found := FindReset(passwordResetTokens, Sha256(raw));
      if found.None? {
        out := ResetRefused;
      } else {
        var i := found.value;
        var storedToken := passwordResetTokens[i];
        var u := storedToken.userId;
        if storedToken.usedAt.Some? || storedToken.expiresAt < now || !Usable(users, u) {
          out := ResetRefused;
        } else {
          var user := users[u].(password := Some(Bcrypt(password)), failedLoginAttempts := 0, lockedUntil := None);
          users := users[u := user];
          passwordResetTokens := passwordResetTokens[i := storedToken.(usedAt := Some(now))];
          refreshTokens := RevokeUser(refreshTokens, u, now);
          out := PasswordReset(u);
        }
      }
      Record(Event.ResetPassword(raw, password), old(State()));
    }

    /** The clock moves on, or an administrator changes a user row. */
    method Environment(e: Event)
      requires Valid() && (e.Tick? || e.SetActive? || e.SoftDelete? || e.SetRole?)
      modifies this
      ensures Valid() && State() == old(Expected(e)).db && history == old(history) + [e]
    {
      match e {
        case Tick(ms) => now := now + ms;
        case SetActive(u, active) =>
          if u < |users| { users := users[u := users[u].(isActive := active)]; }
        case SoftDelete(u) =>
          if u < |users| { users := users[u := users[u].(deletedAt := Some(now))]; }
        case SetRole(u, role) =>
          if u < |users| { users := users[u := users[u].(role := role)]; }
      }
      Record(e, old(State()));
    }
  }
}
